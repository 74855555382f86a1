/** What a send leads to: written at once, left in part for the socket thread, or asked for through the pipe and then
    stored; and what is stored goes out when the kernel takes it. */
module TcpDelivery {
  import opened Wrappers
  import opened TcpSocket
  import opened TcpProtocol
  import opened TcpShape
  import opened TcpEffect
  import opened TcpOrder
  import opened TcpStream
  import opened TcpAccount
  import opened TcpControl
  import opened TcpClosing
  import opened TcpTheorem
  import opened TcpRuns
  import opened TcpProgress

  // ----- a sender that no other thread gets in the way of -----

  /** The next `k` steps of a sender; its `write` takes at most `n` bytes. */
  function Works(s: State, t: Tid, n: nat, k: nat): State
    decreases k
  {
    if k == 0 then s else Works(Do(s, Work(t, n)), t, n, k - 1)
  }

  /** The sender's own steps lead from `s` to `s'`. */
  ghost predicate Leads(s: State, t: Tid, n: nat, s': State) {
    exists k: nat :: Works(s, t, n, k) == s'
  }

  lemma LeadsSelf(s: State, t: Tid, n: nat)
    ensures Leads(s, t, n, s)
  {
    assert Works(s, t, n, 0) == s;
  }

  lemma LeadsNext(s: State, t: Tid, n: nat, s': State)
    requires Leads(Do(s, Work(t, n)), t, n, s')
    ensures Leads(s, t, n, s')
  {
    var k: nat :| Works(Do(s, Work(t, n)), t, n, k) == s';
    assert Works(s, t, n, k + 1) == s';
  }

  /** Everything `can_direct_write` asks for. */
  predicate Clear(s: State) {
    s.c.high == [] && s.c.low == [] && s.c.dw == None && s.sending == 0 && s.c.kind.Connected?
  }

  /** The reads of `can_direct_write` from `stage` on: they go through only if all hold. */
  predicate ClearFrom(s: State, stage: nat) {
    forall i :: stage <= i <= 4 ==> Passes(s, i)
  }

  lemma ClearIs(s: State)
    ensures ClearFrom(s, 0) <==> Clear(s)
  {
    if ClearFrom(s, 0) {
      assert Passes(s, 0) && Passes(s, 1) && Passes(s, 2) && Passes(s, 3) && Passes(s, 4);
    }
  }

  lemma DoProbe(s: State, t: Tid, n: nat, p: Pkg, locked: bool, stage: nat)
    ensures Do(To(s, t, Probe(p, locked, stage)), Work(t, n)) ==
            if !Passes(s, stage) then To(if locked then s.(lock := Free) else s, t, Inc(p))
            else if stage < 4 then To(s, t, Probe(p, locked, stage + 1))
            else To(s, t, if locked then Write(p) else TryLock(p))
  {
    var s1 := To(s, t, Probe(p, locked, stage));
    assert forall pc :: To(s1, t, pc) == To(s, t, pc);
    assert Passes(s1, stage) == Passes(s, stage);
  }

  lemma {:induction false} ProbeLeads(s: State, t: Tid, n: nat, p: Pkg, locked: bool, stage: nat, s': State)
    requires stage <= 4
    requires Leads(if ClearFrom(s, stage) then To(s, t, if locked then Write(p) else TryLock(p))
                   else To(if locked then s.(lock := Free) else s, t, Inc(p)), t, n, s')
    ensures Leads(To(s, t, Probe(p, locked, stage)), t, n, s')
    decreases 5 - stage
  {
    DoProbe(s, t, n, p, locked, stage);
    var s1 := To(s, t, Probe(p, locked, stage));
    assert ClearFrom(s, stage) ==> Passes(s, stage);
    if Passes(s, stage) {
      assert ClearFrom(s, stage) <==> ClearFrom(s, stage + 1);
      if stage < 4 { ProbeLeads(s, t, n, p, locked, stage + 1, s'); }
    }
    hide Do, Works, Leads, Passes;
    LeadsNext(s1, t, n, s');
  }

  /** What a send through the pipe leaves behind. */
  function Asks(s: State, p: Pkg): State {
    var q := p.(ticket := s.tickets + 1);
    s.(sending := s.sending + 1, tickets := s.tickets + 1, pipe := s.pipe + [Send(q)],
       accepted := s.accepted + multiset{q})
  }

  /** The step of a sender is that of its own place. */
  lemma DoWork(s: State, t: Tid, n: nat, pc: Pc, s': State)
    requires s' == DoSender(To(s, t, pc), t, pc, n)
    ensures Do(To(s, t, pc), Work(t, n)) == s'
  {
    hide DoSender;
  }

  lemma DoInc(s: State, t: Tid, n: nat, p: Pkg)
    requires s.sending < MAX_SENDING
    ensures DoSender(To(s, t, Inc(p)), t, Inc(p), n) == To(s.(sending := s.sending + 1), t, Push(p))
  {
  }

  lemma DoPush(s: State, t: Tid, n: nat, p: Pkg)
    ensures DoSender(To(s.(sending := s.sending + 1), t, Push(p)), t, Push(p), n) == To(Asks(s, p), t, Idle)
  {
  }

  lemma AskLeads(s: State, t: Tid, n: nat, p: Pkg)
    requires s.sending < MAX_SENDING
    ensures Leads(To(s, t, Inc(p)), t, n, To(Asks(s, p), t, Idle))
  {
    hide Do, Works, Leads, DoSender, To, Asks;
    var s1 := s.(sending := s.sending + 1);
    DoInc(s, t, n, p);
    DoWork(s, t, n, Inc(p), To(s1, t, Push(p)));
    DoPush(s, t, n, p);
    DoWork(s1, t, n, Push(p), To(Asks(s, p), t, Idle));
    LeadsSelf(To(Asks(s, p), t, Idle), t, n);
    LeadsNext(To(s1, t, Push(p)), t, n, To(Asks(s, p), t, Idle));
    LeadsNext(To(s, t, Inc(p)), t, n, To(Asks(s, p), t, Idle));
  }

  /** What a direct write leaves behind of which the kernel takes `m` bytes. */
  function Direct(s: State, p: Pkg, m: nat): State
    requires m <= |p.data|
  {
    var s1 := s.(wire := s.wire + Span(p, 0, m), torn := s.torn || (s.cut.Some? && m > 0),
                 accepted := s.accepted + multiset{p});
    if m == |p.data| then s1.(done := s.done + [p])
    else s1.(c := s.c.(dw := Some(Buffer(p, m))), pipe := s.pipe + [Wake])
  }

  /** With the lock held, right after the write. */
  function Out(s: State, t: Tid, p: Pkg, m: nat): State
    requires m <= |p.data|
  {
    s.(lock := Sender(t), wire := s.wire + Span(p, 0, m), torn := s.torn || (s.cut.Some? && m > 0))
  }

  lemma DoWrite(s: State, t: Tid, n: nat, p: Pkg)
    ensures DoSender(To(s.(lock := Sender(t)), t, Write(p)), t, Write(p), n) ==
            var m := Least(n, |p.data|);
            if m == |p.data| then To(Direct(s, p, m).(lock := Sender(t)), t, Leave(false))
            else To(Out(s, t, p, m), t, Store(Buffer(p, m)))
  {
  }

  lemma DoStore(s: State, t: Tid, n: nat, p: Pkg, m: nat)
    requires m < |p.data|
    ensures DoSender(To(Out(s, t, p, m), t, Store(Buffer(p, m))), t, Store(Buffer(p, m)), n) ==
            To(Direct(s, p, m).(lock := Sender(t), pipe := s.pipe), t, Leave(true))
  {
  }

  lemma DoLeave(s: State, t: Tid, n: nat, stored: bool)
    requires s.lock.Free?
    ensures DoSender(To(s.(lock := Sender(t)), t, Leave(stored)), t, Leave(stored), n) ==
            To(s, t, if stored then Waking else Idle)
  {
  }

  lemma DoWake(s: State, t: Tid, n: nat)
    ensures DoSender(To(s, t, Waking), t, Waking, n) == To(s.(pipe := s.pipe + [Wake]), t, Idle)
  {
  }

  lemma LeaveLeads(s: State, t: Tid, n: nat, stored: bool)
    requires s.lock.Free?
    ensures Leads(To(s.(lock := Sender(t)), t, Leave(stored)), t, n,
                  To(if stored then s.(pipe := s.pipe + [Wake]) else s, t, Idle))
  {
    hide Do, Works, Leads, DoSender, To;
    DoLeave(s, t, n, stored);
    DoWork(s.(lock := Sender(t)), t, n, Leave(stored), To(s, t, if stored then Waking else Idle));
    if stored {
      var s' := To(s.(pipe := s.pipe + [Wake]), t, Idle);
      DoWake(s, t, n);
      DoWork(s, t, n, Waking, s');
      LeadsSelf(s', t, n);
      LeadsNext(To(s, t, Waking), t, n, s');
      LeadsNext(To(s.(lock := Sender(t)), t, Leave(stored)), t, n, s');
    } else {
      LeadsSelf(To(s, t, Idle), t, n);
      LeadsNext(To(s.(lock := Sender(t)), t, Leave(stored)), t, n, To(s, t, Idle));
    }
  }

  lemma DirectIs(s: State, p: Pkg, m: nat)
    requires m <= |p.data|
    ensures var s1 := Direct(s, p, m);
            s1.lock == s.lock && (m < |p.data| ==> s1.(pipe := s.pipe).(pipe := s.pipe + [Wake]) == s1)
  {
  }

  lemma WriteLeads(s: State, t: Tid, n: nat, p: Pkg)
    requires s.lock.Free?
    ensures Leads(To(s.(lock := Sender(t)), t, Write(p)), t, n, To(Direct(s, p, Least(n, |p.data|)), t, Idle))
  {
    hide Do, Works, Leads, DoSender, To, Direct, Out;
    var m := Least(n, |p.data|);
    var held := s.(lock := Sender(t));
    var end := To(Direct(s, p, m), t, Idle);
    DirectIs(s, p, m);
    DoWrite(s, t, n, p);
    if m == |p.data| {
      var s1 := Direct(s, p, m);
      LeaveLeads(s1, t, n, false);
      DoWork(held, t, n, Write(p), To(s1.(lock := Sender(t)), t, Leave(false)));
    } else {
      var s1 := Direct(s, p, m).(pipe := s.pipe);
      LeaveLeads(s1, t, n, true);
      DoStore(s, t, n, p, m);
      DoWork(Out(s, t, p, m), t, n, Store(Buffer(p, m)), To(s1.(lock := Sender(t)), t, Leave(true)));
      LeadsNext(To(Out(s, t, p, m), t, Store(Buffer(p, m))), t, n, end);
      DoWork(held, t, n, Write(p), To(Out(s, t, p, m), t, Store(Buffer(p, m))));
    }
    LeadsNext(To(held, t, Write(p)), t, n, end);
  }

  lemma LockLeads(s: State, t: Tid, n: nat, p: Pkg, s': State)
    requires s.lock.Free? && Leads(To(s.(lock := Sender(t)), t, Probe(p, true, 0)), t, n, s')
    ensures Leads(To(s, t, TryLock(p)), t, n, s')
  {
    var s1 := To(s, t, TryLock(p));
    assert Do(s1, Work(t, n)) == To(s.(lock := Sender(t)), t, Probe(p, true, 0));
    hide Do, Works, Leads;
    LeadsNext(s1, t, n, s');
  }

  /** What one send leads to: a high priority package is written at once if nothing is in its way, and what the
      kernel does not take is left for the socket thread, which is woken; otherwise it is asked for. */
  lemma SendLeads(s: State, t: Tid, low: bool, data: seq<Byte>, n: nat)
    requires t in s.senders && s.senders[t].Idle? && s.lock.Free? && s.sending < 0xffff
    requires !s.c.kind.Invalid? && (low || !s.c.closing)
    ensures var p, s1 := Pkg(t, s.clock, low, data, 0), s.(clock := s.clock + 1);
            Leads(Do(s, Begin(t, low, data)), t, n,
                  if !low && Clear(s) then Direct(s1, p, Least(n, |data|)) else Asks(s1, p))
  {
    var p, s1 := Pkg(t, s.clock, low, data, 0), s.(clock := s.clock + 1);
    var end := if !low && Clear(s) then Direct(s1, p, Least(n, |data|)) else Asks(s1, p);
    assert Do(s, Begin(t, low, data)) == To(s1, t, if low then Inc(p) else Probe(p, false, 0));
    assert To(end, t, Idle) == end;
    var held := s1.(lock := Sender(t));
    assert Clear(s1) == Clear(s) == Clear(held);
    ClearIs(s1);
    ClearIs(held);
    hide Do, Works, Leads, Direct, Asks, Clear, ClearFrom;
    if low {
      AskLeads(s1, t, n, p);
    } else {
      if Clear(s) {
        WriteLeads(s1, t, n, p);
        ProbeLeads(held, t, n, p, true, 0, end);
        LockLeads(s1, t, n, p, end);
      } else {
        AskLeads(s1, t, n, p);
      }
      ProbeLeads(s1, t, n, p, false, 0, end);
    }
  }

  // ----- the socket thread -----

  /** A send that is taken from the pipe: stored behind all others of its priority, or, once the socket is closing or
      writing has failed, turned away.  It is no longer under way. */
  lemma PoppedSend(s: State)
    requires s.thread.Poll? && s.pipe != [] && s.pipe[0].Send? && CountInv(s) && ListsInv(s)
    ensures var s', p, q := Do(Do(s, Pop), Go(Busy)), s.pipe[0].p, Bufs(s.c);
            && s'.thread.Poll? && s'.pipe == s.pipe[1..] && s'.sending == s.sending - 1
            && s'.done == s.done && s'.wire == s.wire && s'.lost == s.lost && s'.events == s.events
            && s'.c.kind == s.c.kind && s'.c.closing == s.c.closing
            && if (s.c.kind.Connected? || s.c.kind.HalfRead?) && !s.c.closing
               then s'.refused == s.refused &&
                    var k := if p.low then |q| else |q| - |s.c.low|;
                    (forall i :: k <= i < |q| ==> q[i].p.low) && Bufs(s'.c) == q[..k] + [Buffer(p, 0)] + q[k..]
               else s'.refused == s.refused + multiset{p} && Bufs(s'.c) == q
  {
    var p := s.pipe[0].p;
    AppendPlace(s.c, p);
    AppendRest(s.c, p);
    PendingSends(s);
    var s1 := s.(pipe := s.pipe[1..]);
    var s2 := if Refuses(s.c) then s1.(thread := Dec, refused := s.refused + multiset{p})
              else s1.(thread := Dec, c := Append(s.c, p));
    hide Append, Bufs, AllLow;
    assert Do(s, Pop) == s2;
    assert Do(s2, Go(Busy)) == s2.(thread := Poll, sending := s.sending - 1);
    assert Place(s.c, p) == if p.low then |Bufs(s.c)| else |Bufs(s.c)| - |s.c.low| by { Places(s.c); }
    assert !Refuses(s.c) ==> AllLow(Bufs(s.c)[Place(s.c, p)..]);
    LowFrom(Bufs(s.c), Place(s.c, p));
  }

  lemma Places(c: Core)
    ensures |Bufs(c)| == |AsSeq(c.dw)| + |c.high| + |c.low|
  {
  }

  lemma LowFrom(q: seq<Buf>, k: nat)
    requires k <= |q| && AllLow(q[k..])
    ensures forall i :: k <= i < |q| ==> q[i].p.low
  {
    forall i | k <= i < |q| ensures q[i].p.low {
      assert q[k..][i - k] == q[i];
    }
  }

  lemma AppendRest(c: Core, p: Pkg)
    ensures var c' := Append(c, p); c'.kind == c.kind && c'.closing == c.closing
  {
  }

  /** A send that has been asked for is under way. */
  lemma PendingSends(s: State)
    requires CountInv(s) && s.pipe != [] && s.pipe[0].Send?
    ensures s.sending > 0
  {
    assert Asked(s.pipe) != [];
  }

  /** The count of sends under way never leaves its sixteen bits. */
  lemma {:induction false} SendingFits(s: State, acts: seq<Act>)
    requires Opened(s)
    ensures Run(s, acts).sending <= 0xffff
    decreases |acts|
  {
    if acts != [] {
      hide Inv, Do, Opened;
      SendingFits(s, acts[..|acts| - 1]);
      RunKeeps(s, acts[..|acts| - 1]);
      StepFits(Run(s, acts[..|acts| - 1]), acts[|acts| - 1]);
    }
  }

  lemma StepFits(s: State, a: Act)
    requires Inv(s) && s.sending <= 0xffff
    ensures Do(s, a).sending <= 0xffff
  {
    hide Inv, DoSender, DoThread, Shape, Sound, EventInv, Effect;
    InvSays(s);
    match a
    case Work(t, n) => if t in s.senders { SenderFits(s, t, n); }
    case Begin(_, _, _) =>
    case Stop(_) =>
    case _ =>
      ThreadEffect(s, a);
      EffectFits(s, DoThread(s, a));
  }

  lemma SenderFits(s: State, t: Tid, n: nat)
    requires t in s.senders && s.sending <= 0xffff
    ensures DoSender(s, t, s.senders[t], n).sending <= 0xffff
  {
    hide Passes;
  }

  lemma EffectFits(s: State, s': State)
    requires Effect(s, s')
    ensures s'.sending <= s.sending
  {
    hide Rests, Queues, TurnsAway, SendsFirst, Drops, TakesSend;
  }

  // ----- what is stored goes out -----

  predicate TakesIt(k: Kernel, b: Buf) {
    k.Takes? && k.n >= |b.p.data|
  }

  /** A kernel that takes whatever it is given. */
  ghost predicate Generous(kernel: nat -> Kernel, q: seq<Buf>) {
    forall i, j :: 0 <= j < |q| ==> TakesIt(kernel(i), q[j])
  }

  lemma {:induction false} AllTaken(c: Core, low: bool, kernel: nat -> Kernel, i: nat)
    requires Generous(kernel, Pick(c, low))
    ensures var r := SendList(c, low, kernel, i);
            r.ret == Nothing && r.sent == RestAll(Pick(c, low)) &&
                r.c == Put(c, low, []).(wb := c.wb - LeftAll(Pick(c, low)))
    decreases |Pick(c, low)|
  {
    var q := Pick(c, low);
    if q != [] {
      assert TakesIt(kernel(i), q[0]);
      assert Rest(q[0])[..Left(q[0])] == Rest(q[0]);
      var c' := AfterWrite(c, low, kernel(i));
      assert Pick(c', low) == q[1..];
      AllTaken(c', low, kernel, i + 1);
    }
  }

  /** `send_buffer_` with such a kernel sends all there is, and closes a socket that was closing. */
  lemma BothTaken(c: Core, kernel: nat -> Kernel)
    requires Generous(kernel, c.high) && Generous(kernel, c.low)
    ensures var r := SendBoth(c, kernel);
            r.sent == Queued(c) && Empty(r.c) && r.c.dw == (if c.closing && !c.kind.Invalid? then None else c.dw) &&
            r.c.kind == if c.closing then Invalid else c.kind
  {
    AllTaken(c, false, kernel, 0);
    var r := SendList(c, false, kernel, 0);
    AllTaken(r.c, true, kernel, r.next);
    hide SendList, RestAll, LeftAll;
    NothingLeft(c);
  }

  lemma NothingLeft(c: Core)
    ensures c.low == [] ==> Queued(c) == RestAll(c.high)
  {
  }

  lemma {:induction false} RestJoin(a: seq<Buf>, b: seq<Buf>)
    ensures RestAll(a + b) == RestAll(a) + RestAll(b)
  {
    if a == [] {
      assert a + b == b;
    } else {
      assert (a + b)[1..] == a[1..] + b;
      RestJoin(a[1..], b);
      Regroup(Rest(a[0]), RestAll(a[1..]), RestAll(b));
    }
  }

  lemma DirectFirst(c: Core)
    ensures var c' := TakeDirect(c);
            && Queued(c') == RestAll(Bufs(c)) && c'.high + c'.low == Bufs(c)
            && c'.dw == None && c'.closing == c.closing && c'.kind == c.kind && c'.low == c.low
  {
    var c' := TakeDirect(c);
    assert c'.high + c'.low == Bufs(c);
    RestJoin(c'.high, c'.low);
  }

  /** A socket that may write, with a kernel that takes everything: all that is stored goes out in order, and a closing
      socket is closed. */
  lemma WriteEvent(s: State, kernel: nat -> Kernel)
    requires s.thread.Poll? && s.lock.Free? && !s.c.kind.Invalid? && ListsInv(s) && Generous(kernel, Bufs(s.c))
    ensures Do(s, CanWrite).thread == Flush(false)
    ensures var s' := Served(Do(s, CanWrite), kernel);
            && s'.thread.Poll? && TcpRuns.Data(s'.wire) == TcpRuns.Data(s.wire) + RestAll(Bufs(s.c)) && Bufs(s'.c) == []
            && s'.c.kind == if s.c.closing then Invalid else s.c.kind
  {
    var s1 := Do(s, CanWrite);
    assert s1.c == TakeDirect(s.c) && s1.wire == s.wire && s1.thread == Flush(false);
    hide Do, TcpRuns.Data, Bufs, Served, SendBoth, RestAll, TakeDirect, Queued, Empty;
    DirectFirst(s.c);
    Parts(kernel, s1.c.high, s1.c.low, Bufs(s.c));
    BothTaken(s1.c, kernel);
    ServedIsSendBoth(s1, kernel);
    NoneStored(Served(s1, kernel).c);
  }

  lemma NoneStored(c: Core)
    requires Empty(c) && c.dw == None
    ensures Bufs(c) == []
  {
  }

  lemma Parts(kernel: nat -> Kernel, a: seq<Buf>, b: seq<Buf>, q: seq<Buf>)
    requires a + b == q && Generous(kernel, q)
    ensures Generous(kernel, a) && Generous(kernel, b)
  {
    assert forall j :: 0 <= j < |a| ==> a[j] == q[j];
    assert forall j :: 0 <= j < |b| ==> b[j] == q[|a| + j];
    assert Generous(kernel, a);
    assert Generous(kernel, b);
  }

  // ----- what is heard -----

  /** Data is handed on unless the reading side is closed; a failed read and a fault are reported; otherwise nothing
      happens. */
  lemma HeardLeads(s: State)
    requires Ready(s)
    ensures Do(s, CanRead(Got)) == if Closed in s.events then s else s.(events := s.events + [TcpProtocol.Data])
    ensures Do(s, CanRead(Failed)) == Do(s, Fault) == s.(events := s.events + [Err])
    ensures Do(s, CanRead(NothingYet)) == s
  {
    assert Closed in s.events <==> s.c.kind.HalfRead?;
    hide ClosedOnce, SocketInv, EventInv;
  }
}
