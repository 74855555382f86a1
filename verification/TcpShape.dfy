/** What every step of the socket protocol keeps: who holds the lock, what it protects, and what
      the two write lists look like meanwhile. */
module TcpShape {
  import opened Wrappers
  import opened TcpSocket
  import opened TcpProtocol

  // ----- the lock -----

  predicate Locked(pc: Pc) {
    match pc
    case Probe(_, locked, _) => locked
    case Write(_) => true
    case Store(_) => true
    case Leave(_) => true
    case _ => false
  }

  predicate Flushes(th: Thread) {
    th.Flush? || th.Raise? || th.Finish?
  }

  /** A sender that has read, under the lock, everything up to `stage`. */
  predicate Past(pc: Pc, stage: nat) {
    (pc.Probe? && pc.locked && pc.stage > stage) || pc.Write? || pc.Store?
  }

  /** The package a sender is still busy with. */
  function Pending(pc: Pc): Option<Pkg> {
    match pc
    case Probe(p, _, _) => Some(p)
    case TryLock(p) => Some(p)
    case Write(p) => Some(p)
    case Store(b) => Some(b.p)
    case Inc(p) => Some(p)
    case Push(p) => Some(p)
    case _ => None
  }

  ghost predicate LockInv(s: State) {
    && (forall t :: t in s.senders ==> (s.lock == Sender(t) <==> Locked(s.senders[t])))
    && (s.lock == Server <==> Flushes(s.thread))
    && (s.lock.Sender? ==> s.lock.t in s.senders)
  }

  /** A package is numbered when its send starts and still without a ticket until it is pushed. */
  predicate PendingOk(s: State, t: Tid) 
    requires t in s.senders
  {
    var p := Pending(s.senders[t]);
    p.Some? ==>
      p.value.from == t && p.value.nr < s.clock && p.value.ticket == 0 &&
      (p.value.low ==> !s.senders[t].Probe? && !s.senders[t].TryLock? && !Locked(s.senders[t]))
  }

  /** What a sender under the lock has seen is still so. */
  predicate SeenOk(s: State, pc: Pc) {
    && (Past(pc, 0) ==> Fresh(s.c.high))
    && (Past(pc, 2) ==> s.c.dw == None)
    && (Past(pc, 4) ==> s.c.kind.Connected? || s.c.kind.HalfRead?)
  }

  ghost predicate SendersInv(s: State) {
    forall t :: t in s.senders ==> PendingOk(s, t) && SeenOk(s, s.senders[t])
  }

  predicate SocketInv(s: State) {
    && (s.c.closing ==> s.c.kind.HalfRead? || s.c.kind.Invalid?)
    && (s.c.kind.Invalid? ==> Empty(s.c) && s.c.dw == None)
    && (s.c.kind.Invalid? ==> !s.thread.Force? && !s.thread.Look? && !Flushes(s.thread))
    && (s.thread.Force? ==> Empty(s.c) && s.thread.report == !s.c.kind.HalfRead?)
    && (s.thread.Look? ==> Empty(s.c))
    && (s.cut.Some? ==> s.thread.Force? || s.c.kind.Invalid?)
    && (Flushes(s.thread) ==> s.c.dw == None)
    && (s.thread == Flush(true) || s.thread.Raise? || s.thread.Finish? ==> s.c.high == [])
    && (s.thread.Finish? ==> s.c.low == [])
    && (s.thread.Raise? ==> Uncomplete(s.c.low))
  }

  predicate AllLow(q: seq<Buf>) {
    forall i :: 0 <= i < |q| ==> q[i].p.low
  }

  /** At most one buffer has been sent in part, and it is the first to go on. */
  predicate ListsInv(s: State) {
    && AllLow(s.c.low)
    && (s.c.low != [] ==> Fresh(s.c.low[1..]))
    && (!s.thread.Raise? ==> Fresh(s.c.low))
    && (s.c.high != [] ==> Fresh(s.c.high[1..]))
    && (s.c.dw.Some? ==> Fresh(s.c.high))
  }

  ghost predicate Shape(s: State) {
    LockInv(s) && SendersInv(s) && SocketInv(s) && ListsInv(s)
  }

  lemma StartShape(s: State)
    requires Opened(s)
    ensures Shape(s)
  {
  }

  // ----- a step of a sender -----

  /** What a sender's step changes of the socket: nothing but `dw`, and that only under the lock. */
  predicate Moves(s: State, s': State, t: Tid)
    requires t in s.senders
  {
    && t in s'.senders && s'.senders == s.senders[t := s'.senders[t]]
    && s'.thread == s.thread && s'.cut == s.cut && s'.clock == s.clock && s'.events == s.events
    && s'.c == s.c.(dw := s'.c.dw)
    && (s'.c.dw != s.c.dw ==> s.senders[t].Store? && s'.c.dw == Some(s.senders[t].b))
    && (s'.lock != s.lock ==> s'.lock == (if Locked(s'.senders[t]) then Sender(t) else Free))
    && (s'.lock != s.lock ==> s.lock == (if Locked(s.senders[t]) then Sender(t) else Free))
    && (s'.lock == s.lock ==> Locked(s'.senders[t]) == Locked(s.senders[t]))
  }

  /** Nothing enters or leaves the pipe. */
  predicate Still(s: State, s': State) {
    s'.pipe == s.pipe && s'.sending == s.sending && s'.tickets == s.tickets && s'.refused == s.refused &&
        s'.lost == s.lost
  }

  lemma WrittenMoves(s: State, t: Tid, p: Pkg, n: nat)
    requires t in s.senders && s.senders[t] == Write(p) && n <= |p.data|
    ensures Moves(s, Written(s, t, p, n), t)
    ensures var pc := Written(s, t, p, n).senders[t];
            (pc == Leave(false) || (pc.Store? && pc.b.p == p))
  {
  }

  lemma ProbedMoves(s: State, t: Tid, p: Pkg, locked: bool, stage: nat)
    requires t in s.senders && s.senders[t] == Probe(p, locked, stage) && (locked ==> s.lock == Sender(t))
    ensures Moves(s, Probed(s, t, p, locked, stage), t)
    ensures var pc := Probed(s, t, p, locked, stage).senders[t];
            Pending(pc) == Some(p) && (SeenOk(s, s.senders[t]) ==> SeenOk(s, pc))
  {
    assert forall q :: q == [] ==> Fresh(q);
    hide Fresh;
  }

  lemma StillMoves(s: State, t: Tid, n: nat)
    requires t in s.senders && (s.senders[t].Probe? || s.senders[t].Write?)
    ensures var s' := DoSender(s, t, s.senders[t], n);
            && Still(s, s') && t in s'.senders && !s'.senders[t].Push?
            && s'.due == s.due && s'.end == s.end && s'.thread == s.thread && s'.events == s.events && s'.c == s.c &&
                s.done <= s'.done
            && (s.senders[t].Probe? ==> s'.done == s.done && s'.wire == s.wire && s'.torn == s.torn && s'.c == s.c &&
                                        s'.accepted == s.accepted && s'.cut == s.cut && !s'.senders[t].Store?)
  {
    hide Passes;
  }

  /** What is left of a direct write is stored. */
  lemma StoreOne(s: State, t: Tid, b: Buf, n: nat)
    requires t in s.senders && s.senders[t] == Store(b)
    ensures DoSender(s, t, s.senders[t], n) ==
            To(s.(c := s.c.(dw := Some(b)), accepted := s.accepted + multiset{b.p}), t, Leave(true))
  {
  }

  lemma LockMoves(s: State, t: Tid, n: nat)
    requires LockInv(s) && t in s.senders && (s.senders[t].TryLock? || s.senders[t].Store? || s.senders[t].Leave?)
    ensures Moves(s, DoSender(s, t, s.senders[t], n), t)
  {
  }

  lemma PipeMoves(s: State, t: Tid, n: nat)
    requires t in s.senders && (s.senders[t].Idle? || s.senders[t].Waking? || s.senders[t].Inc? || s.senders[t].Push?)
    ensures Moves(s, DoSender(s, t, s.senders[t], n), t)
  {
  }

  lemma SenderMoves(s: State, t: Tid, n: nat)
    requires Shape(s) && t in s.senders
    ensures Moves(s, DoSender(s, t, s.senders[t], n), t)
  {
    hide Moves, ListsInv, SocketInv, SendersInv, SeenOk, Probed, Written;
    match s.senders[t]
    case Write(p) => WrittenMoves(s, t, p, Least(n, |p.data|));
    case Probe(p, locked, stage) => ProbedMoves(s, t, p, locked, stage);
    case TryLock(_) => LockMoves(s, t, n);
    case Store(_) => LockMoves(s, t, n);
    case Leave(_) => LockMoves(s, t, n);
    case _ => PipeMoves(s, t, n);
  }

  lemma SenderKeepsLock(s: State, t: Tid, n: nat)
    requires Shape(s) && t in s.senders
    ensures LockInv(DoSender(s, t, s.senders[t], n))
  {
    hide DoSender, SendersInv, ListsInv, SocketInv;
    SenderMoves(s, t, n);
  }

  lemma SenderOk(s: State, t: Tid, n: nat)
    requires Shape(s) && t in s.senders
    ensures var s' := DoSender(s, t, s.senders[t], n);
            PendingOk(s', t) && SeenOk(s', s'.senders[t])
  {
    assert PendingOk(s, t) && SeenOk(s, s.senders[t]);
    match s.senders[t]
    case Write(p) => WriteOk(s, t, p, n);
    case Probe(p, locked, stage) => ProbeOk(s, t, p, locked, stage, n);
    case _ => PlainOk(s, t, n);
  }

  lemma WriteOk(s: State, t: Tid, p: Pkg, n: nat)
    requires t in s.senders && s.senders[t] == Write(p) && PendingOk(s, t) && SeenOk(s, s.senders[t])
    ensures var s' := DoSender(s, t, s.senders[t], n);
            PendingOk(s', t) && SeenOk(s', s'.senders[t])
  {
    hide Fresh, Written, Still;
    WrittenMoves(s, t, p, Least(n, |p.data|));
  }

  lemma ProbeOk(s: State, t: Tid, p: Pkg, locked: bool, stage: nat, n: nat)
    requires LockInv(s) && t in s.senders && s.senders[t] == Probe(p, locked, stage) && PendingOk(s, t) &&
             SeenOk(s, s.senders[t])
    ensures var s' := DoSender(s, t, s.senders[t], n);
            PendingOk(s', t) && SeenOk(s', s'.senders[t])
  {
    hide Fresh, Probed, Still;
    ProbedMoves(s, t, p, locked, stage);
  }

  lemma PlainNext(s: State, t: Tid, n: nat)
    requires t in s.senders && !s.senders[t].Write? && !s.senders[t].Probe?
    ensures var s', pc := DoSender(s, t, s.senders[t], n), s.senders[t];
            s'.clock == s.clock && t in s'.senders && var pc' := s'.senders[t];
            match pc
            case TryLock(p) => pc' == Probe(p, true, 0) || pc' == Inc(p)
            case Inc(p) => pc' == Inc(p) || pc' == Push(p)
            case _ => pc'.Idle? || pc'.Leave? || pc'.Waking?
  {
  }

  /** A package in hand stays in hand or is let go. */
  lemma PlainPending(s: State, t: Tid, n: nat)
    requires t in s.senders && !s.senders[t].Write? && !s.senders[t].Probe? && PendingOk(s, t)
    ensures var s' := DoSender(s, t, s.senders[t], n);
            t in s'.senders && PendingOk(s', t) && !Past(s'.senders[t], 0)
  {
    hide DoSender;
    PlainNext(s, t, n);
  }

  lemma PlainOk(s: State, t: Tid, n: nat)
    requires t in s.senders && !s.senders[t].Write? && !s.senders[t].Probe? && PendingOk(s, t)
    ensures var s' := DoSender(s, t, s.senders[t], n);
            t in s'.senders && PendingOk(s', t) && SeenOk(s', s'.senders[t])
  {
    hide DoSender, PendingOk, Fresh;
    PlainPending(s, t, n);
  }

  lemma SenderKeepsSenders(s: State, t: Tid, n: nat)
    requires Shape(s) && t in s.senders
    ensures SendersInv(DoSender(s, t, s.senders[t], n))
  {
    SenderOk(s, t, n);
    SenderMoves(s, t, n);
    hide DoSender, ListsInv, SocketInv, Fresh;
    var s' := DoSender(s, t, s.senders[t], n);
    forall u | u in s'.senders ensures PendingOk(s', u) && SeenOk(s', s'.senders[u]) {
      assert u != t ==> PendingOk(s, u) && SeenOk(s, s.senders[u]);
    }
  }

  lemma SenderKeepsShape(s: State, t: Tid, n: nat)
    requires Shape(s) && t in s.senders
    ensures Shape(DoSender(s, t, s.senders[t], n))
  {
    SenderKeepsLock(s, t, n);
    SenderKeepsSenders(s, t, n);
    SenderMoves(s, t, n);
    assert SeenOk(s, s.senders[t]);
    hide DoSender, SendersInv, SeenOk;
  }

  // ----- a step of the socket thread -----

  /** While a sender holds the lock the socket thread leaves alone what the sender has read. */
  predicate Leaves(s: State, s': State) {
    && s'.senders == s.senders && s'.clock == s.clock
    && (s'.lock == Server <==> Flushes(s'.thread))
    && (s'.lock.Sender? ==> s.lock == s'.lock)
    && (s.lock.Sender? ==> s'.lock == s.lock && s'.c.dw == s.c.dw && (Fresh(s.c.high) ==> Fresh(s'.c.high)))
    && (s.lock.Sender? && (s.c.kind.Connected? || s.c.kind.HalfRead?) ==> s'.c.kind.Connected? || s'.c.kind.HalfRead?)
  }

  predicate Sound(s: State) {
    SocketInv(s) && ListsInv(s) && (s.lock == Server <==> Flushes(s.thread))
  }

  /** A step of the socket thread from `s` to `s'` is in order. */
  predicate Goes(s: State, s': State) {
    Sound(s') && Leaves(s, s')
  }

  lemma GoForced(s: State, report: bool, why: End)
    requires Sound(s) && !Flushes(s.thread) && !s.c.kind.Invalid? && report == !s.c.kind.HalfRead?
    ensures Goes(s, Forced(s, report, why))
  {
  }

  lemma GoJudged(s: State, nomore: bool, byClose: bool)
    requires Sound(s) && !Flushes(s.thread) && !s.thread.Force? && !s.c.kind.Invalid?
    ensures Goes(s, Judged(s, nomore, byClose))
  {
    hide Forced, Fresh, AllLow;
    if nomore || s.c.kind.HalfWrite? {
      GoForced(s, !s.c.kind.HalfRead?, if s.c.kind.HalfWrite? then HalfWritten else Quiet);
    }
  }

  lemma GoLooked(s: State, dw: bool, byClose: bool)
    requires Sound(s) && s.thread.Look?
    ensures Goes(s, Looked(s, dw, byClose))
  {
    hide Judged;
    GoJudged(s, false, byClose);
    GoJudged(s, s.sending == 0, byClose);
  }

  lemma GoAppend(s: State, p: Pkg)
    requires Sound(s) && s.thread == Poll && !Refuses(s.c)
    ensures Goes(s, s.(thread := Dec, c := Append(s.c, p)))
  {
    assert AllLow(s.c.low) && (p.low ==> AllLow(s.c.low + [Buffer(p, 0)]));
    assert Append(s.c, p).high == s.c.high || Append(s.c, p).high == s.c.high + [Buffer(p, 0)];
    assert Append(s.c, p).low == s.c.low || Append(s.c, p).low == s.c.low + [Buffer(p, 0)];
  }

  lemma GoPopped(s: State, cmd: Cmd)
    requires Sound(s) && s.thread == Poll
    ensures Goes(s, Popped(s, cmd))
  {
    hide Forced, Judged, Append, Fresh, AllLow;
    if cmd.Send? && !Refuses(s.c) { GoAppend(s, cmd.p); }
    if cmd.Close? && !s.c.kind.Invalid? {
      GoForced(s, !s.c.kind.HalfRead?, Shutdown);
      var s' := s.(due := if s.c.closing then s.due else cmd.due);
      GoJudged(s', false, true);
    }
  }

  lemma GoRead(s: State, heard: Heard)
    requires Sound(s) && s.thread == Poll && !s.c.kind.Invalid?
    ensures Goes(s, Read(s, heard))
  {
    hide Forced, Judged;
    GoJudged(s, false, false);
    if s.c.kind.HalfWrite? { GoForced(s, true, Remote); }
  }

  lemma GoEnded(s: State)
    requires Sound(s) && s.thread.Force? && s.lock.Free?
    ensures Goes(s, Ended(s, s.thread.report, s.thread.why))
  {
  }

  lemma GoHurt(s: State)
    requires Sound(s) && s.thread.Flush?
    ensures Goes(s, Hurt(s))
  {
  }

  /** A buffer that goes out whole leaves its list; one that goes out in part stays the first. */
  lemma GoWrite(s: State, low: bool, k: Kernel)
    requires Sound(s) && s.thread == Flush(low) && Pick(s.c, low) != [] && k.Takes?
    ensures var q := Pick(s.c, low);
            var n := Taken(q[0], k);
            var s' := s.(c := AfterWrite(s.c, low, k), wire := s.wire + Span(q[0].p, q[0].off, q[0].off + n));
            if n == Left(q[0]) then Goes(s, s'.(done := s.done + [q[0].p]))
            else if low && Uncomplete(s'.c.low) then Goes(s, s'.(thread := Raise))
            else Goes(s, Unlock(s'))
  {
    var q := Pick(s.c, low);
    assert AllLow(s.c.low[..]) && (low ==> AllLow(q[1..]));
    assert Fresh(q[1..]) && (q[0].off == 0 ==> Fresh(q));
    assert q[1..] != [] ==> Fresh(q[1..][1..]);
    assert forall b: Buf :: ([b] + q[1..])[1..] == q[1..];
    assert forall b: Buf :: b.off == 0 ==> Fresh([b] + q[1..]);
  }

  lemma GoFlushing(s: State, k: Kernel)
    requires Sound(s) && s.thread.Flush?
    ensures Goes(s, Flushing(s, s.thread.low, k))
  {
    hide Hurt, Left, Rest, Taken, Fresh, AllLow, AfterWrite;
    GoHurt(s);
    if Pick(s.c, s.thread.low) != [] && k.Takes? { GoWrite(s, s.thread.low, k); }
  }

  lemma GoDirect(s: State)
    requires Sound(s) && s.thread == Poll && !s.c.kind.Invalid? && s.lock.Free?
    ensures Goes(s, s.(lock := Server, c := TakeDirect(s.c), thread := Flush(false)))
  {
  }

  lemma GoFinish(s: State)
    requires Sound(s) && (s.thread.Finish? || s.thread.Raise?)
    ensures s.thread.Raise? ==> s.c.low != [] && Goes(s, Unlock(s.(c := Raised(s.c))))
    ensures s.thread.Finish? ==> forall e :: Goes(s, Unlock(s.(c := Drained(s.c), end := e)))
  {
  }

  /** Steps that change nothing that matters here. */
  lemma GoNowhere(s: State, s': State)
    requires Sound(s) && s'.c == s.c && s'.senders == s.senders && s'.lock == s.lock && s'.clock == s.clock &&
             s'.cut == s.cut
    requires s'.thread == s.thread || (s.thread.Dec? && s'.thread == Poll)
    ensures Goes(s, s')
  {
  }

  lemma GoesAfter(s: State, s0: State, s': State)
    requires s0 == s.(pipe := s0.pipe) && Goes(s0, s')
    ensures Goes(s, s')
  {
  }

  lemma ThreadGoes(s: State, a: Act)
    requires Sound(s)
    ensures Goes(s, DoThread(s, a))
  {
    GoNowhere(s, s);
    hide Popped, Read, Looked, Forced, Ended, Flushing, Goes, Fresh, AllLow, Drained, Raised, TakeDirect;
    match s.thread
    case Poll =>
      GoNowhere(s, s.(events := s.events + [Err]));
      if a.Pop? && s.pipe != [] {
        var s0 := s.(pipe := s.pipe[1..]);
        assert Sound(s0);
        GoPopped(s0, s.pipe[0]);
        GoesAfter(s, s0, Popped(s0, s.pipe[0]));
      }
      if !s.c.kind.Invalid? {
        if a.CanRead? { GoRead(s, a.heard); }
        GoForced(s, !s.c.kind.HalfRead?, Eof);
        if s.lock.Free? { GoDirect(s); }
      }
    case Dec => GoNowhere(s, DoThread(s, a));
    case Look(dw, byClose) =>
      GoLooked(s, dw, byClose);
    case Force(report, why) =>
      if s.lock.Free? { GoEnded(s); }
    case Flush(low) =>
      if a.Go? { GoFlushing(s, a.k); }
    case _ =>
      GoFinish(s);
  }

  lemma ThreadKeepsShape(s: State, a: Act)
    requires Shape(s)
    ensures Shape(DoThread(s, a))
  {
    hide DoThread, Fresh, AllLow;
    ThreadGoes(s, a);
    var s' := DoThread(s, a);
    assert LockInv(s') by { hide ListsInv, SocketInv; }
    forall u | u in s'.senders ensures PendingOk(s', u) && SeenOk(s', s'.senders[u]) {
      hide ListsInv, SocketInv;
      assert PendingOk(s, u) && SeenOk(s, s.senders[u]);
    }
  }
}
