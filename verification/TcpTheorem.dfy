/** What holds in every run of the socket protocol, however the steps interleave and however much
      each write takes. */
module TcpTheorem {
  import opened Wrappers
  import opened TcpSocket
  import opened TcpProtocol
  import opened TcpShape
  import opened TcpEffect
  import opened TcpOrder
  import opened TcpStream
  import opened TcpAccount
  import opened TcpControl
  import opened TcpClosing
  import opened TcpSize

  ghost predicate Inv(s: State) {
    && Shape(s) && SizeInv(s) && CountInv(s) && OrderInv(s) && StreamInv(s) && Accounted(s)
    && EventInv(s) && PipeInv(s) && DueInv(s)
    && TornInv(s)
  }

  lemma StartOrder(s: State)
    requires Opened(s)
    ensures OrderInv(s) && CountInv(s)
  {
    assert Inflight(s) == [] && Pkgs([]) == [] && Asked(s.pipe) == [] && Pushers(s) == {};
    hide Inflight, Asked, Pkgs, Pushers;
    assert Chain(s) == [];
  }

  lemma StartStream(s: State)
    requires Opened(s)
    ensures StreamInv(s) && Accounted(s) && TornInv(s)
  {
    assert Inflight(s) == [] && Bufs(s.c) == [] && Pkgs([]) == [] && Asked(s.pipe) == [];
    hide Inflight, Asked, Bufs, Pkgs;
  }

  lemma StartEvents(s: State)
    requires Opened(s)
    ensures SizeInv(s) && EventInv(s) && PipeInv(s) && DueInv(s)
  {
  }

  lemma StartKeeps(s: State)
    requires Opened(s)
    ensures Inv(s)
  {
    hide Opened, Shape, SizeInv, CountInv, OrderInv, StreamInv, Accounted, EventInv, PipeInv, DueInv, TornInv;
    StartShape(s);
    StartOrder(s);
    StartStream(s);
    StartEvents(s);
  }

  // ----- the wire only grows, and is torn only by a direct write after a forced close -----

  predicate TornInv(s: State) {
    s.torn ==> !Whole(s.wire)
  }

  lemma SenderKeepsTorn(s: State, t: Tid, n: nat)
    requires StreamInv(s) && TornInv(s) && t in s.senders
    ensures TornInv(DoSender(s, t, s.senders[t], n))
  {
    hide StreamInv, Whole;
    match s.senders[t]
    case Write(p) =>
      var m := Least(n, |p.data|);
      if s.torn { NotWholeMore(s.wire, Span(p, 0, m)); }
      else if s.cut.Some? && m > 0 { Tears(s, p, m); }
    case Store(_) =>
    case Push(_) =>
    case _ =>
      SenderRests(s, t, n);
      hide DoSender;
  }

  lemma ThreadKeepsTorn(s: State, s': State)
    requires Effect(s, s') && TornInv(s)
    ensures TornInv(s')
  {
    if Queues(s, s') { QueuesFacts(s, s'); }
    hide Whole, Bufs, Bag, Queues, Counts, Head, SamePipe;
    if s.torn && SendsFirst(s, s') {
      var b, n := Bufs(s.c)[0], |s'.wire| - |s.wire|;
      NotWholeMore(s.wire, Span(b.p, b.off, b.off + n));
    }
  }

  // ----- requests from the services -----

  lemma BeginShape(s: State, t: Tid, p: Pkg)
    requires Shape(s) && t in s.senders && s.senders[t].Idle? && p.from == t && p.nr == s.clock && p.ticket == 0
    ensures Shape(Started(s, t, p))
  {
    hide Fresh, AllLow;
    var s' := Started(s, t, p);
    assert SendersInv(s') by {
      hide LockInv, SocketInv, ListsInv;
      forall u | u in s'.senders ensures PendingOk(s', u) && SeenOk(s', s'.senders[u]) {
        assert PendingOk(s, u) && SeenOk(s, s.senders[u]);
      }
    }
    hide SendersInv;
  }

  lemma BeginOrder(s: State, t: Tid, p: Pkg)
    requires LockInv(s) && OrderInv(s) && t in s.senders && s.senders[t].Idle? && p.from == t && p.nr == s.clock &&
             p.ticket == 0
    ensures OrderInv(Started(s, t, p)) && Inflight(Started(s, t, p)) == Inflight(s)
  {
    var s' := Started(s, t, p);
    assert Inflight(s') == Inflight(s);
    assert Chain(s') == Chain(s);
    hide LockInv, Asked, Chain, Tidy, Inflight;
    forall u | u in s'.senders ensures SenderOrder(s', u) {
      assert SenderOrder(s, u);
    }
  }

  lemma SamePipeInv(s: State, s': State)
    requires PipeInv(s) && s'.pipe == s.pipe && s'.done == s.done && s'.c == s.c && s'.refused == s.refused &&
             s'.lost == s.lost
    ensures PipeInv(s')
  {
    assert forall p :: Has(s, p) ==> Has(s', p);
    hide Has, Asked;
    forall k | 0 <= k < |s'.pipe| && s'.pipe[k].Close? ensures Covered(s', k) {
      assert Covered(s, k);
    }
  }

  lemma DueSame(s: State, s': State)
    requires DueInv(s) && s'.c == s.c && s'.thread == s.thread && s'.done == s.done && s'.due == s.due &&
             s'.end == s.end
    requires s'.lost == s.lost && s'.refused == s.refused && s'.torn == s.torn
    ensures DueInv(s')
  {
    hide Bufs, Pkgs;
    assert Held(s, s.due) ==> Held(s', s.due);
  }

  lemma BeginRest(s: State, t: Tid, p: Pkg)
    requires CountInv(s) && StreamInv(s) && Accounted(s) && t in s.senders && s.senders[t].Idle?
    requires Inflight(Started(s, t, p)) == Inflight(s)
    ensures CountInv(Started(s, t, p)) && StreamInv(Started(s, t, p)) && Accounted(Started(s, t, p))
  {
    PushersStep(s, Started(s, t, p), t);
    hide Pushers, Asked, Inflight, Bufs, Bag, Streams;
  }

  lemma BeginKeeps(s: State, t: Tid, p: Pkg)
    requires Inv(s) && t in s.senders && s.senders[t].Idle? && p.from == t && p.nr == s.clock && p.ticket == 0
    ensures Inv(Started(s, t, p))
  {
    var s' := Started(s, t, p);
    BeginShape(s, t, p);
    BeginOrder(s, t, p);
    BeginRest(s, t, p);
    SamePipeInv(s, s');
    DueSame(s, s');
    hide Shape, OrderInv, PipeInv, CountInv, StreamInv, Accounted, Whole, Sized, ClosedOnce, DueInv;
  }

  lemma StopOrder(s: State, cmd: Cmd)
    requires LockInv(s) && OrderInv(s) && cmd.Close?
    ensures var s' := s.(pipe := s.pipe + [cmd]);
            OrderInv(s') && Inflight(s') == Inflight(s) && Asked(s'.pipe) == Asked(s.pipe)
  {
    var s' := s.(pipe := s.pipe + [cmd]);
    AskedMore(s.pipe, cmd);
    assert Inflight(s') == Inflight(s);
    assert Chain(s') == Chain(s);
    hide LockInv, Asked, Chain, Tidy, Inflight;
    forall u | u in s'.senders ensures SenderOrder(s', u) {
      assert SenderOrder(s, u);
    }
  }

  /** All that has been accepted is covered. */
  lemma StopPipe(s: State, shutdown: bool, d: set<Pkg>)
    requires Accounted(s) && PipeInv(s) && forall p :: p in d ==> p in s.accepted
    ensures PipeInv(s.(pipe := s.pipe + [Close(shutdown, d)]))
  {
    var s' := s.(pipe := s.pipe + [Close(shutdown, d)]);
    hide Asked, Bufs, Pkgs;
    forall k, p | 0 <= k < |s'.pipe| && s'.pipe[k].Close? && p in s'.pipe[k].due
      ensures Has(s', p) || Gone(s', p) || p in Asked(s'.pipe[..k])
    {
      assert s'.pipe[..k] == s.pipe[..k];
      if k < |s.pipe| {
        assert Covered(s, k);
      } else {
        assert s.pipe[..k] == s.pipe;
        assert p in multiset(s.done) || p in Bag(Bufs(s.c)) || p in multiset(Asked(s.pipe)) || Gone(s, p);
      }
    }
  }

  lemma StopShape(s: State, cmd: Cmd)
    requires Shape(s)
    ensures Shape(s.(pipe := s.pipe + [cmd]))
  {
    var s' := s.(pipe := s.pipe + [cmd]);
    hide Fresh, AllLow;
    assert SendersInv(s') by {
      hide LockInv, SocketInv, ListsInv;
      forall u | u in s'.senders ensures PendingOk(s', u) && SeenOk(s', s'.senders[u]) {
        assert PendingOk(s, u) && SeenOk(s, s.senders[u]);
      }
    }
    hide SendersInv;
  }

  lemma StopRest(s: State, cmd: Cmd)
    requires CountInv(s) && StreamInv(s) && Accounted(s)
    requires Inflight(s.(pipe := s.pipe + [cmd])) == Inflight(s) && Asked(s.pipe + [cmd]) == Asked(s.pipe)
    ensures var s' := s.(pipe := s.pipe + [cmd]);
            CountInv(s') && StreamInv(s') && Accounted(s')
  {
    var s' := s.(pipe := s.pipe + [cmd]);
    assert Pushers(s') == Pushers(s);
    hide Pushers, Asked, Inflight, Bufs, Bag, Streams;
  }

  lemma StopKeeps(s: State, shutdown: bool, d: set<Pkg>)
    requires Inv(s) && forall p :: p in d ==> p in s.accepted
    ensures Inv(s.(pipe := s.pipe + [Close(shutdown, d)]))
  {
    assert LockInv(s);
    hide Shape, OrderInv, PipeInv, Asked, Inflight, DueInv, CountInv, StreamInv, Accounted, Whole, Sized, ClosedOnce;
    var cmd := Close(shutdown, d);
    var s' := s.(pipe := s.pipe + [cmd]);
    StopOrder(s, cmd);
    StopPipe(s, shutdown, d);
    StopShape(s, cmd);
    StopRest(s, cmd);
    DueSame(s, s');
  }

  lemma WorkKeeps(s: State, t: Tid, n: nat)
    requires Inv(s) && t in s.senders
    ensures Inv(DoSender(s, t, s.senders[t], n))
  {
    hide DoSender, Shape, SizeInv, CountInv, OrderInv, StreamInv, Accounted, EventInv, PipeInv, DueInv, TornInv;
    SenderKeepsShape(s, t, n);
    SenderKeepsCount(s, t, n);
    SenderKeepsOrder(s, t, n);
    SenderKeepsStream(s, t, n);
    SenderAccounts(s, t, n);
    SenderKeepsClosing(s, t, n);
    SenderKeepsTorn(s, t, n);
    SenderKeepsSize(s, t, n);
  }

  lemma ThreadKeeps(s: State, a: Act)
    requires Inv(s)
    ensures Inv(DoThread(s, a))
  {
    hide DoThread, Shape, SizeInv, CountInv, OrderInv, StreamInv, Accounted, EventInv, PipeInv, DueInv, TornInv, Sound,
         Effect, Tells, Proceeds, Leaves;
    ShapeIsSound(s);
    var s' := DoThread(s, a);
    ThreadGoes(s, a);
    ThreadEffect(s, a);
    ThreadTalks(s, a);
    ThreadKeepsShape(s, a);
    ThreadKeepsCount(s, a);
    ThreadKeepsOrder(s, a);
    ThreadKeepsStream(s, a);
    ThreadAccounts(s, a);
    TellsKeeps(s, s');
    ThreadKeepsPipe(s, s');
    ThreadKeepsDue(s, s');
    ThreadKeepsTorn(s, s');
    ThreadKeepsSize(s, a);
  }

  lemma StepKeeps(s: State, a: Act)
    requires Inv(s)
    ensures Inv(Do(s, a))
  {
    hide Inv, Started, DoSender, DoThread;
    match a
    case Begin(t, low, data) =>
      if t in s.senders && s.senders[t].Idle? { BeginKeeps(s, t, Pkg(t, s.clock, low, data, 0)); }
    case Stop(shutdown) => StopKeeps(s, shutdown, set p | p in s.accepted);
    case Work(t, n) => if t in s.senders { WorkKeeps(s, t, n); }
    case _ => ThreadKeeps(s, a);
  }

  lemma SenderKeepsSize(s: State, t: Tid, n: nat)
    requires Shape(s) && SizeInv(s) && t in s.senders
    ensures SizeInv(DoSender(s, t, s.senders[t], n))
  {
    SenderMoves(s, t, n);
    hide DoSender, Shape, LeftAll;
  }

  lemma {:induction false} RunKeeps(s: State, acts: seq<Act>)
    requires Opened(s)
    ensures Inv(Run(s, acts))
  {
    hide Inv, Do;
    if acts == [] {
      StartKeeps(s);
    } else {
      RunKeeps(s, acts[..|acts| - 1]);
      StepKeeps(Run(s, acts[..|acts| - 1]), acts[|acts| - 1]);
    }
  }

  // ----- main results, for every run -----

  lemma ChainOfLine(s: State)
    ensures Chain(s) == s.done + Pkgs(Line(s)) + Asked(s.pipe)
  {
    hide Bufs, Inflight, Asked;
    PkgsJoin(Inflight(s), Bufs(s.c));
  }

  /** No package is sent twice; packages of high priority from one sender, and packages of one
      priority from the pipe, are sent in the order in which they were given. */
  lemma SentInOrder(s: State, acts: seq<Act>, i: nat, j: nat)
    requires Opened(s)
    requires var q := Run(s, acts).done + Pkgs(Line(Run(s, acts))); i < j < |q|
    ensures var q := Run(s, acts).done + Pkgs(Line(Run(s, acts)));
            !(q[i].from == q[j].from && q[i].nr == q[j].nr) && !Before(q[j], q[i])
  {
    RunKeeps(s, acts);
    var s' := Run(s, acts);
    assert OrderInv(s');
    hide Inv, Run, Bufs, Inflight, Asked;
    ChainOfLine(s');
    TidyJoin(s'.done + Pkgs(Line(s')), Asked(s'.pipe));
  }

  /** Until a forced close begins, the kernel has been given whole packages and then at most the
      beginning of the one next in line. */
  lemma WireInLine(s: State, acts: seq<Act>)
    requires Opened(s)
    ensures var s' := Run(s, acts);
            && (!Dead(s') ==> s'.wire == Flat(s'.done) + Tip(Line(s')) && (Line(s') != [] ==> Fresh(Line(s')[1..])))
            && (Whole(s'.wire) <==> !s'.torn)
  {
    RunKeeps(s, acts);
    var s' := Run(s, acts);
    LineTail(s');
    if !s'.torn { IntactWhole(s'); }
    assert !Dead(s') ==> !s'.torn && s'.cut == None;
    assert AsSeq(None) + Line(s') == Line(s');
    hide DueInv, SizeInv, SocketInv, Run, Line, Flat, Tip, Whole, Fresh, LockInv, SendersInv, ListsInv, OrderInv,
        CountInv, PipeInv, Accounted, EventInv;
  }

  /** Every package accepted has been sent, is stored or asked for, or is gone; and packages are
      only gone once closing has begun or a write has failed. */
  lemma NothingLost(s: State, acts: seq<Act>)
    requires Opened(s)
    ensures var s' := Run(s, acts);
            && s'.accepted == multiset(s'.done) + multiset(Pkgs(Bufs(s'.c))) + multiset(Asked(s'.pipe)) + s'.refused +
                s'.lost
            && (!Dead(s') && !s'.c.closing && !s'.c.kind.HalfWrite? ==> s'.refused == s'.lost == multiset{})
  {
    RunKeeps(s, acts);
    hide Run, Bufs, Asked, Shape, OrderInv, CountInv, StreamInv, EventInv, PipeInv, TornInv, Held, SentAll;
  }

  /** SOCKET_CLOSE is raised at most once, exactly when the reading side is closed, and only errors
      are reported after it. */
  lemma ClosesOnce(s: State, acts: seq<Act>)
    requires Opened(s)
    ensures var s' := Run(s, acts);
            ClosedOnce(s'.events) && (Closed in s'.events <==> s'.c.kind.HalfRead? || s'.c.kind.Invalid?)
  {
    RunKeeps(s, acts);
    hide Run, Shape, OrderInv, CountInv, StreamInv, Accounted, PipeInv, DueInv, TornInv, ClosedOnce;
  }

  /** A socket that was asked to close ends either with everything sent that had been accepted when
      the request was made, or by a failed write, a shutdown or a hang-up.  If it ends by itself
      after flushing, nothing that was stored is lost. */
  lemma CloseFlushes(s: State, acts: seq<Act>)
    requires Opened(s)
    ensures var s' := Run(s, acts);
            && (s'.c.kind.Invalid? && s'.c.closing ==>
                  s'.end == Flushed || s'.end == Quiet || s'.end == WriteError || s'.end == Shutdown || s'.end == Eof)
            && (s'.end == Flushed || s'.end == Quiet ==> forall p :: p in s'.due ==> p in s'.done)
            && (s'.end == Flushed ==> s'.lost == multiset{})
  {
    RunKeeps(s, acts);
    hide Run, Shape, OrderInv, CountInv, StreamInv, Accounted, PipeInv, EventInv, TornInv, Held;
  }

  /** What the source asserts: the reference count is positive when it is lowered, no buffer of the
      low list has been sent in part when `send_buffer_` starts, and nothing is left when it ends. */
  lemma AssertionsHold(s: State, acts: seq<Act>)
    requires Opened(s)
    ensures var s' := Run(s, acts);
            && (s'.thread.Dec? ==> s'.sending > 0)
            && (s'.thread == Flush(false) ==> !Uncomplete(s'.c.low))
            && (s'.thread.Raise? ==> s'.c.low != [] && s'.c.high == [])
            && (s'.thread.Finish? ==> Empty(s'.c) && s'.c.wb == 0)
  {
    RunKeeps(s, acts);
    var s' := Run(s, acts);
    hide Run, OrderInv, StreamInv, Accounted, PipeInv, EventInv, TornInv, DueInv, Asked, Pushers, LockInv, SendersInv;
    if s'.thread.Finish? {
      assert SocketInv(s') && ListsInv(s');
    }
  }
}
