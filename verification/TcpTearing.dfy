/** When a forced close can leave a package in the middle of another: exactly when, as it begins, the
      head of the high list has been sent in part and some sender may still find nothing to wait for. */
module TcpTearing {
  import opened Wrappers
  import opened TcpSocket
  import opened TcpProtocol
  import opened TcpShape
  import opened TcpOrder
  import opened TcpStream
  import opened TcpClosing
  import opened TcpTheorem
  import opened TcpRuns

  // ----- what makes the difference, on the fields that the source keeps -----

  /** The head of the high list has been sent in part, no request to send is under way, the socket is
      open both ways, and some thread is not on its way to the control pipe. */
  ghost predicate MayTear(s: State) {
    Uncomplete(s.c.high) && s.sending == 0 && s.c.kind.Connected? && exists t :: t in s.senders && !s.senders[t].Inc?
  }

  /** The step begins a forced close: the lists are freed, the socket is still to be closed. */
  predicate Begins(s: State, a: Act) {
    !s.thread.Force? && Do(s, a).thread.Force?
  }

  /** What a forced close changes when it begins. */
  predicate Begun(s: State, s': State) {
    && s'.c.high == s'.c.low == [] && s'.c.kind == s.c.kind && s'.c.dw == s.c.dw && !s.c.kind.Invalid?
    && s'.cut == Head(s.c.high) && s'.sending == s.sending && s'.senders == s.senders && s'.torn == s.torn
  }

  lemma JudgedBegun(s: State, s1: State, nomore: bool, byClose: bool)
    requires !s.c.kind.Invalid? && s1 == s.(pipe := s1.pipe, due := s1.due, thread := s1.thread) && !s1.thread.Force?
    ensures var s' := Judged(s1, nomore, byClose); s'.thread.Force? ==> Begun(s, s')
  {
    hide Bag, Head;
  }

  lemma PoppedBegun(s: State)
    requires s.thread.Poll? && s.pipe != []
    ensures var s' := Popped(s.(pipe := s.pipe[1..]), s.pipe[0]); s'.thread.Force? ==> Begun(s, s')
  {
    hide Bag, Head, Append, Judged, Begun;
    var s1 := s.(pipe := s.pipe[1..]);
    if s.pipe[0].Close? && !s.c.kind.Invalid? {
      if s.pipe[0].shutdown {
        ForcedBegun(s, s1, !s.c.kind.HalfRead?, Shutdown);
      } else {
        JudgedBegun(s, s1.(due := if s.c.closing then s.due else s.pipe[0].due), false, true);
      }
    }
  }

  lemma ForcedBegun(s: State, s1: State, report: bool, why: End)
    requires !s.c.kind.Invalid? && s1 == s.(pipe := s1.pipe)
    ensures Begun(s, Forced(s1, report, why))
  {
    hide Bag, Head;
  }

  lemma ReadBegun(s: State, heard: Heard)
    requires s.thread.Poll? && !s.c.kind.Invalid?
    ensures var s' := Read(s, heard); s'.thread.Force? ==> Begun(s, s')
  {
    hide Bag, Head, Judged, Forced, Begun;
    JudgedBegun(s, s, false, false);
    ForcedBegun(s, s, true, Remote);
  }

  lemma LookedBegun(s: State)
    requires s.thread.Look? && !s.c.kind.Invalid?
    ensures var s' := Looked(s, s.thread.dw, s.thread.byClose); s'.thread.Force? ==> Begun(s, s')
  {
    hide Bag, Head, Judged, Begun;
    JudgedBegun(s, s, false, s.thread.byClose);
    JudgedBegun(s, s, s.sending == 0, s.thread.byClose);
  }

  lemma BeginsForce(s: State, a: Act)
    requires SocketInv(s) && Begins(s, a)
    ensures Begun(s, Do(s, a))
  {
    hide Begun, Forced, Popped, Read, Looked, Flushing, TakeDirect;
    match s.thread
    case Poll =>
      if a.Pop? && s.pipe != [] { PoppedBegun(s); }
      if a.CanRead? && !s.c.kind.Invalid? { ReadBegun(s, a.heard); }
      if a.HangUp? && !s.c.kind.Invalid? { ForcedBegun(s, s, !s.c.kind.HalfRead?, Eof); }
    case Look(_, _) => LookedBegun(s);
    case Flush(_) => FlushNoForce(s, a);
    case _ =>
  }

  lemma FlushNoForce(s: State, a: Act)
    requires s.thread.Flush?
    ensures !DoThread(s, a).thread.Force?
  {
    hide Bag, Head, AfterWrite, Span, Uncomplete;
  }

  // ----- otherwise the stream stays whole -----

  /** No sender can get to write before the socket is closed. */
  ghost predicate Blocked(s: State) {
    || (s.sending > 0 && forall t :: t in s.senders ==> !Past(s.senders[t], 3))
    || (!s.c.kind.Connected? && forall t :: t in s.senders ==> !Past(s.senders[t], 4))
    || (forall t :: t in s.senders ==> s.senders[t].Inc?)
  }

  ghost predicate Secure(s: State) {
    !s.torn && (s.c.kind.Invalid? || (s.thread.Force? && (s.cut.Some? ==> Blocked(s))))
  }

  /** What a sender's step can do about it. */
  predicate Advances(s: State, s': State, t: Tid)
    requires t in s.senders
  {
    && t in s'.senders && s'.sending >= s.sending
    && (s.sending > 0 && Past(s'.senders[t], 3) ==> Past(s.senders[t], 3))
    && (!s.c.kind.Connected? && Past(s'.senders[t], 4) ==> Past(s.senders[t], 4))
    && (s.senders[t].Inc? ==> s'.senders[t].Inc? || (s'.senders[t].Push? && s'.sending > 0))
    && (s'.torn ==> s.torn || (s.cut.Some? && s.senders[t].Write?))
  }

  lemma WriteAdvances(s: State, t: Tid, p: Pkg, n: nat)
    requires t in s.senders && s.senders[t] == Write(p) && n <= |p.data|
    ensures Advances(s, Written(s, t, p, n), t)
  {
    hide Span;
  }

  lemma ProbeAdvances(s: State, t: Tid, p: Pkg, locked: bool, stage: nat)
    requires t in s.senders && s.senders[t] == Probe(p, locked, stage)
    ensures Advances(s, Probed(s, t, p, locked, stage), t)
  {
  }

  lemma PlainAdvances(s: State, t: Tid, n: nat)
    requires t in s.senders && !s.senders[t].Write? && !s.senders[t].Probe?
    ensures Advances(s, DoSender(s, t, s.senders[t], n), t)
  {
    hide Past;
    PlainNext(s, t, n);
    PlainPast(DoSender(s, t, s.senders[t], n).senders[t]);
  }

  lemma PlainPast(pc: Pc)
    requires !pc.Write? && !pc.Store? && (pc.Probe? ==> pc.stage == 0)
    ensures !Past(pc, 3) && !Past(pc, 4)
  {
  }

  lemma SenderAdvances(s: State, t: Tid, n: nat)
    requires t in s.senders
    ensures Advances(s, DoSender(s, t, s.senders[t], n), t)
  {
    hide Advances, Written, Probed;
    match s.senders[t]
    case Write(p) => WriteAdvances(s, t, p, Least(n, |p.data|));
    case Probe(p, locked, stage) => ProbeAdvances(s, t, p, locked, stage);
    case _ => PlainAdvances(s, t, n);
  }

  lemma BlockedWrites(s: State, t: Tid)
    requires t in s.senders
    ensures Blocked(s) ==> !s.senders[t].Write?
  {
  }

  lemma SenderSecure(s: State, t: Tid, n: nat)
    requires Shape(s) && Secure(s) && t in s.senders
    ensures Secure(DoSender(s, t, s.senders[t], n))
  {
    SenderAdvances(s, t, n);
    SenderMoves(s, t, n);
    assert SeenOk(s, s.senders[t]);
    hide DoSender, Shape, LockInv, SocketInv, ListsInv, SendersInv;
    var s' := DoSender(s, t, s.senders[t], n);
    BlockedWrites(s, t);
    assert forall u :: u in s'.senders && u != t ==> s'.senders[u] == s.senders[u];
  }

  lemma ForceGoes(s: State, a: Act)
    requires s.thread.Force? || s.c.kind.Invalid?
    requires s.c.kind.Invalid? ==> !s.thread.Force? && !s.thread.Look? && !Flushes(s.thread)
    ensures var s' := DoThread(s, a);
            s'.c.kind.Invalid? || (s' == s && s.thread.Force?)
    ensures DoThread(s, a).torn == s.torn
  {
    hide Bag, Head;
  }

  lemma StaysSecure(s: State, a: Act)
    requires Inv(s) && Secure(s)
    ensures Secure(Do(s, a))
  {
    assert Shape(s) && SocketInv(s);
    hide Inv, Shape, LockInv, SendersInv, ListsInv, Secure, DoSender, DoThread, Started, SocketInv;
    match a
    case Begin(t, low, data) => if t in s.senders &&
        s.senders[t].Idle? { StartSecure(s, t, Pkg(t, s.clock, low, data, 0)); }
    case Stop(shutdown) => StopSecure(s, s.(pipe := s.pipe + [Close(shutdown, set p | p in s.accepted)]));
    case Work(t, n) => if t in s.senders { SenderSecure(s, t, n); }
    case _ => ThreadSecure(s, a);
  }

  lemma StartSecure(s: State, t: Tid, p: Pkg)
    requires Secure(s) && t in s.senders && s.senders[t].Idle?
    ensures Secure(Started(s, t, p))
  {
  }

  lemma StopSecure(s: State, s': State)
    requires Secure(s) && s' == s.(pipe := s'.pipe)
    ensures Secure(s')
  {
  }

  lemma ThreadSecure(s: State, a: Act)
    requires SocketInv(s) && Secure(s)
    ensures Secure(DoThread(s, a))
  {
    ForceGoes(s, a);
    hide SocketInv, DoThread, Blocked;
  }

  lemma {:induction false} RunsSecure(s: State, acts: seq<Act>)
    requires Inv(s) && Secure(s)
    ensures Inv(Run(s, acts)) && Secure(Run(s, acts))
  {
    hide Inv, Secure, Do;
    if acts != [] {
      RunsSecure(s, acts[..|acts| - 1]);
      var s' := Run(s, acts[..|acts| - 1]);
      StepKeeps(s', acts[|acts| - 1]);
      StaysSecure(s', acts[|acts| - 1]);
    }
  }

  lemma BeginsSecure(s: State, a: Act)
    requires Inv(s) && Begins(s, a) && !MayTear(s)
    ensures Secure(Do(s, a))
  {
    BeginsForce(s, a);
    NotTornYet(s);
    assert LockInv(s) && SendersInv(s);
    hide Inv, Do, LockInv, Begins;
    var s' := Do(s, a);
    if s'.cut.Some? {
      assert !Fresh(s.c.high) by { assert s.c.high[0].off > 0; }
      forall t | t in s.senders ensures !Past(s.senders[t], 0) { assert SeenOk(s, s.senders[t]); }
    }
  }

  lemma NotTornYet(s: State)
    requires Inv(s)
    ensures s.torn ==> Dead(s)
  {
  }

  // ----- from such a state it can be torn -----

  /** A sender that can still get to write while the forced close waits for the lock. */
  predicate Open(s: State, t: Tid) {
    && t in s.senders && !s.senders[t].Inc? && !s.senders[t].Push? && !s.senders[t].Store?
    && (s.lock == Free || s.lock == Sender(t)) && (s.lock == Sender(t) <==> Locked(s.senders[t]))
    && s.c.high == s.c.low == [] && s.c.dw == None && s.sending == 0
    && s.c.kind.Connected? && !s.c.closing && s.thread.Force? && s.cut.Some?
  }

  function ToGo(stage: nat): nat {
    if stage < 4 then 4 - stage else 0
  }

  /** How many steps it takes at most. */
  function Distance(pc: Pc): nat {
    match pc
    case Write(p) => if p.data == [] then 40 else 0
    case Probe(p, locked, stage) => (if p.data == [] then 40 else 0) + 1 + ToGo(stage) + if locked then 0 else 6
    case TryLock(p) => (if p.data == [] then 40 else 0) + 6
    case Idle => 12
    case Waking => 13
    case _ => 14
  }

  /** What the sender does next: a service that is idle sends a byte. */
  function NextAct(s: State, t: Tid): Act
    requires t in s.senders
  {
    if s.senders[t].Idle? then Begin(t, false, [0]) else Work(t, 1)
  }

  lemma Nearer(s: State, t: Tid)
    requires t in s.senders && Open(s, t) && Distance(s.senders[t]) > 0
    ensures var s' := Do(s, NextAct(s, t));
            t in s'.senders && Open(s', t) && Distance(s'.senders[t]) < Distance(s.senders[t])
  {
    hide Do, NextAct, Open, DoSender;
    match s.senders[t]
    case Probe(_, _, _) => NearerProbe(s, t);
    case Write(_) => NearerWrite(s, t);
    case _ => NearerPlain(s, t);
  }

  lemma NearerProbe(s: State, t: Tid)
    requires Open(s, t) && s.senders[t].Probe?
    ensures var s' := Do(s, NextAct(s, t));
            t in s'.senders && Open(s', t) && Distance(s'.senders[t]) < Distance(s.senders[t])
  {
    assert Passes(s, s.senders[t].stage);
  }

  /** A package without bytes is written, and the sender comes back with another. */
  lemma NearerWrite(s: State, t: Tid)
    requires Open(s, t) && s.senders[t].Write? && s.senders[t].p.data == []
    ensures var s' := Do(s, NextAct(s, t));
            t in s'.senders && Open(s', t) && Distance(s'.senders[t]) < Distance(s.senders[t])
  {
    hide Span;
  }

  lemma NearerPlain(s: State, t: Tid)
    requires Open(s, t) && !s.senders[t].Probe? && !s.senders[t].Write?
    ensures var s' := Do(s, NextAct(s, t));
            t in s'.senders && Open(s', t) && Distance(s'.senders[t]) < Distance(s.senders[t])
  {
  }

  lemma Written1(s: State, t: Tid)
    requires Open(s, t) && Distance(s.senders[t]) == 0
    ensures Do(s, Work(t, 1)).torn
  {
  }

  lemma {:induction false} CanTear(s: State, t: Tid) returns (acts: seq<Act>)
    requires t in s.senders && Open(s, t)
    ensures Run(s, acts).torn
    decreases Distance(s.senders[t])
  {
    hide Do, Open;
    if Distance(s.senders[t]) == 0 {
      Written1(s, t);
      OneAct(s, Work(t, 1));
      acts := [Work(t, 1)];
    } else {
      Nearer(s, t);
      var rest := CanTear(Do(s, NextAct(s, t)), t);
      RunFirst(s, NextAct(s, t), rest);
      acts := [NextAct(s, t)] + rest;
    }
  }

  lemma IsOpen(s: State, s': State, t: Tid)
    requires Begun(s, s') && LockInv(s') && SocketInv(s') && s'.thread.Force?
    requires t in s.senders && !s.senders[t].Inc? && !s.senders[t].Push? && !s.senders[t].Store?
    requires s.c.dw == None && s.sending == 0 && s.c.kind.Connected? && Uncomplete(s.c.high)
    requires s'.lock.Sender? ==> t == s'.lock.t
    ensures Open(s', t)
  {
  }

  /** Of the senders, one that holds the lock comes first. */
  lemma OneIsOpen(s: State, a: Act) returns (t: Tid)
    requires Inv(s) && Begins(s, a) && MayTear(s)
    ensures t in Do(s, a).senders && Open(Do(s, a), t)
  {
    StepKeeps(s, a);
    Facts(s);
    Facts(Do(s, a));
    hide Inv, Shape, LockInv, SocketInv, CountInv, Do, Open, Begun;
    BeginsForce(s, a);
    var s' := Do(s, a);
    t :| t in s.senders && !s.senders[t].Inc?;
    if s'.lock.Sender? {
      t := s'.lock.t;
      NoHolderAsks(s', t);
    }
    SendersSame(s, s');
    NoneStores(s, t);
    NonePushes(s, t);
    IsOpen(s, s', t);
  }

  lemma Facts(s: State)
    requires Inv(s)
    ensures Shape(s) && LockInv(s) && SocketInv(s) && CountInv(s)
  {
  }

  lemma SendersSame(s: State, s': State)
    requires Begun(s, s')
    ensures s'.senders == s.senders
  {
  }

  lemma NoHolderAsks(s: State, t: Tid)
    requires LockInv(s) && s.lock == Sender(t)
    ensures t in s.senders && !s.senders[t].Inc?
  {
  }

  lemma NoneStores(s: State, t: Tid)
    requires Shape(s) && t in s.senders && Uncomplete(s.c.high)
    ensures !s.senders[t].Store? && s.c.dw == None
  {
    assert SeenOk(s, s.senders[t]);
    assert !Fresh(s.c.high) by { assert s.c.high[0].off > 0; }
  }

  lemma NonePushes(s: State, t: Tid)
    requires CountInv(s) && t in s.senders && s.sending == 0
    ensures !s.senders[t].Push?
  {
    assert t in Pushers(s) <==> s.senders[t].Push?;
  }

  /** A forced close that begins can be followed by a write into the middle of a package exactly if
      the head of the high list has been sent in part and some sender may still write. */
  lemma TearsIff(s: State, a: Act)
    requires Inv(s) && Begins(s, a)
    ensures MayTear(s) <==> exists acts :: !Whole(Run(Do(s, a), acts).wire)
  {
    StepKeeps(s, a);
    hide Do, Run, MayTear, Whole, Begins, Inv;
    if MayTear(s) {
      var t := OneIsOpen(s, a);
      var acts := CanTear(Do(s, a), t);
      RunsTorn(Do(s, a), acts);
    } else {
      BeginsSecure(s, a);
      forall acts ensures Whole(Run(Do(s, a), acts).wire) {
        RunsSecure(Do(s, a), acts);
        SecureWhole(Run(Do(s, a), acts));
      }
    }
  }

  lemma {:induction false} RunsTorn(s: State, acts: seq<Act>)
    requires Inv(s)
    ensures Inv(Run(s, acts)) && (Run(s, acts).torn ==> !Whole(Run(s, acts).wire))
  {
    if acts == [] {
      assert TornInv(s);
    } else {
      hide Inv, Do, Whole;
      RunsTorn(s, acts[..|acts| - 1]);
      StepKeeps(Run(s, acts[..|acts| - 1]), acts[|acts| - 1]);
      IsTorn(Run(s, acts));
    }
  }

  lemma IsTorn(s: State)
    requires Inv(s)
    ensures s.torn ==> !Whole(s.wire)
  {
  }

  lemma SecureWhole(s: State)
    requires Inv(s) && Secure(s)
    ensures Whole(s.wire)
  {
    IntactWhole(s);
  }

  /** In every run of an opened socket. */
  lemma RunTearsIff(s: State, acts: seq<Act>, a: Act)
    requires Opened(s) && Begins(Run(s, acts), a)
    ensures MayTear(Run(s, acts)) <==> exists more :: !Whole(Run(s, acts + [a] + more).wire)
  {
    hide Run, Do, Whole, MayTear, Begins, Inv;
    RunKeeps(s, acts);
    TearsIff(Run(s, acts), a);
    RunMore(s, acts, [a]);
    OneAct(Run(s, acts), a);
    var s' := Do(Run(s, acts), a);
    forall more ensures Run(s, acts + [a] + more) == Run(s', more) { RunMore(s, acts + [a], more); }
    if MayTear(Run(s, acts)) {
      var more :| !Whole(Run(s', more).wire);
      assert !Whole(Run(s, acts + [a] + more).wire);
    } else {
      forall more ensures Whole(Run(s, acts + [a] + more).wire) {
        assert Whole(Run(s', more).wire);
      }
    }
  }

  /** Such a run exists: two senders and one shutdown suffice. */
  lemma ForcedCloseCanTear()
    ensures Opened(Start()) && exists acts :: !Whole(Run(Start(), acts).wire)
  {
    BeginningExposes();
    var s := Run(Start(), Beginning());
    hide Run, Beginning, Start, Whole;
    RunMore(Start(), Beginning(), [Stop(true)]);
    OneAct(s, Stop(true));
    ShutdownBegins(s, 2, Pkg(2, 0, false, [20], 0));
    RunTearsIff(Start(), Beginning() + [Stop(true)], Pop);
  }

  lemma ShutdownBegins(s: State, t: Tid, p: Pkg)
    requires Exposed(s, t, p)
    ensures var s' := Do(s, Stop(true)); Begins(s', Pop) && MayTear(s')
  {
    var s' := Do(s, Stop(true));
    assert t in s'.senders && !s'.senders[t].Inc?;
    assert s'.pipe == [Close(true, set p | p in s.accepted)];
    hide Bag, Head;
  }
}
