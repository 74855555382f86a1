/** Two kinds of run: the socket thread going through a write list without interruption, and one in
      which a package sent in part comes to the head of the high list while a sender is about to lock. */
module TcpRuns {
  import opened Wrappers
  import opened TcpSocket
  import opened TcpProtocol
  import opened TcpEffect
  import opened TcpStream
  import opened TcpTheorem

  // ----- the steps of the protocol and the loop of the method -----

  function Value(x: Octet): Byte {
    if x.i < |x.p.data| then x.p.data[x.i] else 0
  }

  function Data(w: seq<Octet>): seq<Byte> {
    seq(|w|, j requires 0 <= j < |w| => Value(w[j]))
  }

  lemma DataOfSpan(b: Buf, n: nat)
    requires n <= Left(b)
    ensures Data(Span(b.p, b.off, b.off + n)) == Rest(b)[..n]
  {
  }

  lemma DataJoin(a: seq<Octet>, b: seq<Octet>)
    ensures Data(a + b) == Data(a) + Data(b)
  {
  }

  /** The socket thread goes on until it is through with the list. */
  function Through(s: State, low: bool, kernel: nat -> Kernel, i: nat): State
    requires s.thread == Flush(low)
    decreases |Pick(s.c, low)|
  {
    var s' := Do(s, Go(kernel(i)));
    if Pick(s.c, low) == [] then s
    else if s'.thread == Flush(low) && |Pick(s'.c, low)| < |Pick(s.c, low)| then Through(s', low, kernel, i + 1)
    else s'
  }

  /** One step of the thread is one turn of the loop in `send_list_tcp`. */
  lemma OneTurn(s: State, low: bool, kernel: nat -> Kernel, i: nat)
    requires s.thread == Flush(low) && Pick(s.c, low) != []
    ensures var s', q := Do(s, Go(kernel(i))), Pick(s.c, low);
            match kernel(i)
            case Broken => s'.thread == Poll && s'.wire == s.wire && s'.c == WriteFailed(s.c).0
            case Busy => s'.thread == Poll && s'.wire == s.wire && s'.c == s.c
            case Takes(_) =>
              s'.c == AfterWrite(s.c, low, kernel(i)) &&
              s'.wire == s.wire + Span(q[0].p, q[0].off, q[0].off + Taken(q[0], kernel(i))) &&
              (s'.thread == Flush(low) <==> Taken(q[0], kernel(i)) == Left(q[0]))
  {
    hide AfterWrite, WriteFailed, Taken, Left, Span, Bag, Head, Uncomplete;
  }

  /** One turn of both, when the first buffer goes out whole. */
  lemma WholeTurn(s: State, low: bool, kernel: nat -> Kernel, i: nat)
    requires s.thread == Flush(low) && Pick(s.c, low) != [] && kernel(i).Takes?
    requires Taken(Pick(s.c, low)[0], kernel(i)) == Left(Pick(s.c, low)[0])
    ensures var s', b := Do(s, Go(kernel(i))), Pick(s.c, low)[0];
            && s'.thread == Flush(low) && |Pick(s'.c, low)| < |Pick(s.c, low)| &&
                Data(s'.wire) == Data(s.wire) + Rest(b)
            && Through(s, low, kernel, i) == Through(s', low, kernel, i + 1)
            && var r := SendList(s'.c, low, kernel, i + 1);
               SendList(s.c, low, kernel, i) == r.(sent := Rest(b) + r.sent)
  {
    var b := Pick(s.c, low)[0];
    OneTurn(s, low, kernel, i);
    DataOfSpan(b, Left(b));
    DataJoin(s.wire, Span(b.p, b.off, b.off + Left(b)));
    assert Rest(b)[..Left(b)] == Rest(b);
    hide Do, Data, Span, Taken, Left;
  }

  /** The last turn of both. */
  lemma LastTurn(s: State, low: bool, kernel: nat -> Kernel, i: nat)
    requires s.thread == Flush(low) && Pick(s.c, low) != []
    requires !kernel(i).Takes? || Taken(Pick(s.c, low)[0], kernel(i)) < Left(Pick(s.c, low)[0])
    ensures var s', r := Through(s, low, kernel, i), SendList(s.c, low, kernel, i);
            s'.c == r.c && Data(s'.wire) == Data(s.wire) + r.sent
  {
    var b := Pick(s.c, low)[0];
    OneTurn(s, low, kernel, i);
    var n := Taken(b, kernel(i));
    DataOfSpan(b, n);
    DataJoin(s.wire, Span(b.p, b.off, b.off + n));
    hide Do, AfterWrite, WriteFailed, Data, Span, Taken, Left;
  }

  /** The steps of the thread, taken together, do what the loop does. */
  lemma {:induction false} ThroughIsSendList(s: State, low: bool, kernel: nat -> Kernel, i: nat)
    requires s.thread == Flush(low)
    ensures var s', r := Through(s, low, kernel, i), SendList(s.c, low, kernel, i);
            s'.c == r.c && Data(s'.wire) == Data(s.wire) + r.sent
    decreases |Pick(s.c, low)|
  {
    if Pick(s.c, low) == [] {
      assert Data(s.wire) + [] == Data(s.wire);
    } else if kernel(i).Takes? && Taken(Pick(s.c, low)[0], kernel(i)) == Left(Pick(s.c, low)[0]) {
      WholeTurn(s, low, kernel, i);
      var s', b := Do(s, Go(kernel(i))), Pick(s.c, low)[0];
      hide Do, Data, Through, SendList;
      ThroughIsSendList(s', low, kernel, i + 1);
      Regroup(Data(s.wire), Rest(b), SendList(s'.c, low, kernel, i + 1).sent);
    } else {
      LastTurn(s, low, kernel, i);
    }
  }

  /** How the thread leaves a list: through with it, about to raise a package sent in part, or done. */
  predicate Leaves(s': State, low: bool, r: Sent) {
    s'.thread == if r.ret == Nothing && Pick(r.c, low) == [] then Flush(low)
                 else if low && r.ret == Nothing && Uncomplete(r.c.low) then Raise
                 else Poll
  }

  lemma {:induction false} ThroughLeaves(s: State, low: bool, kernel: nat -> Kernel, i: nat)
    requires s.thread == Flush(low) && (low ==> Fresh(s.c.low))
    ensures Leaves(Through(s, low, kernel, i), low, SendList(s.c, low, kernel, i))
    decreases |Pick(s.c, low)|
  {
    if Pick(s.c, low) != [] {
      if kernel(i).Takes? && Taken(Pick(s.c, low)[0], kernel(i)) == Left(Pick(s.c, low)[0]) {
        WholeTurn(s, low, kernel, i);
        var s' := Do(s, Go(kernel(i)));
        assert s'.c == AfterWrite(s.c, low, kernel(i)) by { OneTurn(s, low, kernel, i); }
        hide Do, Data, Through, SendList;
        ThroughLeaves(s', low, kernel, i + 1);
      } else {
        LastLeaves(s, low, kernel, i);
      }
    }
  }

  lemma LastLeaves(s: State, low: bool, kernel: nat -> Kernel, i: nat)
    requires s.thread == Flush(low) && Pick(s.c, low) != [] && (low ==> Fresh(s.c.low))
    requires !kernel(i).Takes? || Taken(Pick(s.c, low)[0], kernel(i)) < Left(Pick(s.c, low)[0])
    ensures Leaves(Through(s, low, kernel, i), low, SendList(s.c, low, kernel, i))
  {
    hide Span, Bag, Head;
  }

  /** The socket thread goes on, once it has the lock, until it gives it up: both lists, raising, finishing. */
  function Served(s: State, kernel: nat -> Kernel): State
    requires s.thread == Flush(false)
  {
    var s1 := Through(s, false, kernel, 0);
    if s1.thread != Flush(false) then s1
    else
      var s2 := Do(s1, Go(Busy));
      if s2.thread != Flush(true) then Do(s2, Go(Busy))
      else
        var s3 := Through(s2, true, kernel, SendList(s.c, false, kernel, 0).next);
        if s3.thread == Flush(true) then Do(Do(s3, Go(Busy)), Go(Busy))
        else if s3.thread == Raise then Do(s3, Go(Busy))
        else s3
  }

  lemma ListDone(s: State, low: bool)
    requires s.thread == Flush(low) && Pick(s.c, low) == []
    ensures var s' := Do(s, Go(Busy));
            s'.c == s.c && s'.wire == s.wire && s'.thread == if !low && s.c.low != [] then Flush(true) else Finish
  {
  }

  lemma Finishes(s: State)
    requires s.thread == Finish
    ensures var s' := Do(s, Go(Busy)); s'.c == Drained(s.c) && s'.wire == s.wire && s'.thread == Poll
  {
    hide Drained;
  }

  lemma RaisesOne(s: State)
    requires s.thread == Raise && s.c.low != []
    ensures var s' := Do(s, Go(Busy)); s'.c == Raised(s.c) && s'.wire == s.wire && s'.thread == Poll
  {
    hide Raised;
  }

  /** The low list, from the step that turns to it. */
  lemma LowServed(s: State, kernel: nat -> Kernel, i: nat)
    requires s.thread == Flush(true) && Fresh(s.c.low)
    ensures var s3 := Through(s, true, kernel, i);
            var s' := if s3.thread == Flush(true) then Do(Do(s3, Go(Busy)), Go(Busy))
                      else if s3.thread == Raise then Do(s3, Go(Busy)) else s3;
            var r := SendLow(s.c, kernel, i);
            s'.c == r.c && Data(s'.wire) == Data(s.wire) + r.sent && s'.thread == Poll
  {
    ThroughIsSendList(s, true, kernel, i);
    ThroughLeaves(s, true, kernel, i);
    hide Through, SendList, Do, Data, Fresh, Drained, Raised;
    var s3 := Through(s, true, kernel, i);
    if s3.thread == Flush(true) {
      ListDone(s3, true);
      Finishes(Do(s3, Go(Busy)));
    } else if s3.thread == Raise {
      RaisesOne(s3);
    }
  }

  /** The steps of the thread under the lock, taken together, are `send_buffer_`. */
  lemma ServedIsSendBoth(s: State, kernel: nat -> Kernel)
    requires s.thread == Flush(false) && Fresh(s.c.low)
    ensures var s', r := Served(s, kernel), SendBoth(s.c, kernel);
            s'.c == r.c && Data(s'.wire) == Data(s.wire) + r.sent && s'.thread == Poll
  {
    ThroughIsSendList(s, false, kernel, 0);
    ThroughLeaves(s, false, kernel, 0);
    SendListConserves(s.c, false, kernel, 0);
    var s1, r := Through(s, false, kernel, 0), SendList(s.c, false, kernel, 0);
    hide Through, SendList, SendLow, Do, Data, Drained;
    if s1.thread == Flush(false) {
      ListDone(s1, false);
      var s2 := Do(s1, Go(Busy));
      if s2.thread == Flush(true) {
        LowServed(s2, kernel, r.next);
        Regroup(Data(s.wire), r.sent, SendLow(s2.c, kernel, r.next).sent);
      } else {
        Finishes(s2);
      }
    }
  }

  lemma {:induction false} RunMore(s: State, a: seq<Act>, b: seq<Act>)
    ensures Run(s, a + b) == Run(Run(s, a), b)
    decreases |b|
  {
    hide Do;
    if b == [] {
      assert a + b == a;
    } else {
      assert (a + b)[..|a + b| - 1] == a + b[..|b| - 1];
      RunMore(s, a, b[..|b| - 1]);
    }
  }

  lemma RunFirst(s: State, a: Act, rest: seq<Act>)
    ensures Run(s, [a] + rest) == Run(Do(s, a), rest)
  {
    RunMore(s, [a], rest);
    assert [a][..0] == [] && Run(s, []) == s;
    hide Do;
  }

  lemma OneAct(s: State, a: Act)
    ensures Run(s, [a]) == Do(s, a)
  {
    assert [a][..0] == [] && Run(s, []) == s;
    hide Do;
  }

  /** The next `k` steps of a sender, none of which writes anything. */
  function Steps(t: Tid, k: nat): seq<Act> {
    if k == 0 then [] else [Work(t, 0)] + Steps(t, k - 1)
  }

  lemma RunNone(s: State)
    ensures Run(s, []) == s
  {
  }

  function NextRead(p: Pkg, locked: bool, stage: nat): Pc {
    if stage < 4 then Probe(p, locked, stage + 1) else if locked then Write(p) else TryLock(p)
  }

  lemma OneRead(s: State, t: Tid, p: Pkg, locked: bool, stage: nat)
    requires t in s.senders && s.senders[t] == Probe(p, locked, stage) && stage <= 4
    requires Empty(s.c) && s.c.dw == None && s.sending == 0 && s.c.kind.Connected?
    ensures Do(s, Work(t, 0)) == To(s, t, NextRead(p, locked, stage))
  {
  }

  lemma ToTwice(s: State, t: Tid, a: Pc, b: Pc)
    ensures To(To(s, t, a), t, b) == To(s, t, b)
  {
  }

  /** With nothing queued and no request under way the reads of `can_direct_write` succeed. */
  lemma {:induction false} ReadsPass(s: State, t: Tid, p: Pkg, locked: bool, stage: nat)
    requires t in s.senders && s.senders[t] == Probe(p, locked, stage) && stage <= 4
    requires Empty(s.c) && s.c.dw == None && s.sending == 0 && s.c.kind.Connected?
    ensures Run(s, Steps(t, 5 - stage)) == To(s, t, if locked then Write(p) else TryLock(p))
    decreases 4 - stage
  {
    hide Do, Run;
    var s' := To(s, t, NextRead(p, locked, stage));
    RunFirst(s, Work(t, 0), Steps(t, 4 - stage));
    OneRead(s, t, p, locked, stage);
    if stage < 4 {
      ReadsPass(s', t, p, locked, stage + 1);
      ToTwice(s, t, NextRead(p, locked, stage), if locked then Write(p) else TryLock(p));
    } else {
      RunNone(s');
    }
  }

  /** A sender has found nothing to wait for and is about to take the lock, while a package sent
      in part has meanwhile become the head of the high list. */
  predicate Exposed(s: State, t: Tid, p: Pkg) {
    && t in s.senders && s.senders[t] == TryLock(p) && |p.data| > 0
    && s.lock == Free && s.thread == Poll && s.pipe == []
    && s.c.dw == None && s.sending == 0 && s.c.kind == Connected && Uncomplete(s.c.high)
  }

  // ----- such a state is reached -----

  /** Nothing is queued, under way or locked. */
  predicate Calm(s: State) {
    Empty(s.c) && s.c.dw == None && s.sending == 0 && s.c.kind.Connected? && s.lock == Free && s.thread == Poll &&
        s.pipe == []
  }

  function Approach(t: Tid, data: seq<Byte>): seq<Act> {
    [Begin(t, false, data)] + Steps(t, 5)
  }

  /** A sender starts and finds nothing to wait for. */
  lemma Approaches(s: State, t: Tid, data: seq<Byte>)
    requires Calm(s) && t in s.senders && s.senders[t] == Idle && !s.c.closing
    ensures Run(s, Approach(t, data)) == To(s.(clock := s.clock + 1), t, TryLock(Pkg(t, s.clock, false, data, 0)))
  {
    var p := Pkg(t, s.clock, false, data, 0);
    var s0 := s.(clock := s.clock + 1);
    var s1 := To(s0, t, Probe(p, false, 0));
    hide Do, Run, Steps;
    Begins(s, t, data);
    ReadsPass(s1, t, p, false, 0);
    ToTwice(s0, t, Probe(p, false, 0), TryLock(p));
    hide To;
    RunFirst(s, Begin(t, false, data), Steps(t, 5));
  }

  lemma Begins(s: State, t: Tid, data: seq<Byte>)
    requires t in s.senders && s.senders[t] == Idle && !s.c.kind.Invalid? && !s.c.closing
    ensures Do(s, Begin(t, false, data)) == To(s.(clock := s.clock + 1), t,
                                               Probe(Pkg(t, s.clock, false, data, 0), false, 0))
  {
  }

  function Half(t: Tid): seq<Act> {
    [Work(t, 1)] + ([Work(t, 0)] + ([Work(t, 0)] + ([CanWrite] + [Go(Busy)])))
  }

  /** It writes one byte; the rest goes from `dw_buffer` to the head of the high list. */
  lemma Halves(s: State, t: Tid, p: Pkg)
    requires Empty(s.c) && s.c.dw == None && s.c.kind.Connected? && s.thread == Poll && s.lock == Sender(t)
    requires t in s.senders && s.senders[t] == Write(p) && |p.data| >= 2
    ensures var s' := Run(s, Half(t));
            && s'.c.high == [Buffer(p, 1)] && s'.c.low == [] && s'.c.dw == None && s'.c.kind.Connected?
            && s'.lock == Free && s'.thread == Poll && s'.pipe == s.pipe && s'.sending == s.sending
            && s'.senders == s.senders[t := Waking]
  {
    Writes(s, t, p);
    hide Do, Run;
    var s1 := Do(s, Work(t, 1));
    var s2 := Do(s1, Work(t, 0));
    var s3 := Do(s2, Work(t, 0));
    Moves1(s3, Buffer(p, 1));
    var s4 := Do(s3, CanWrite);
    RunFirst(s, Work(t, 1), [Work(t, 0)] + ([Work(t, 0)] + ([CanWrite] + [Go(Busy)])));
    RunFirst(s1, Work(t, 0), [Work(t, 0)] + ([CanWrite] + [Go(Busy)]));
    RunFirst(s2, Work(t, 0), [CanWrite] + [Go(Busy)]);
    RunFirst(s3, CanWrite, [Go(Busy)]);
    OneAct(s4, Go(Busy));
  }

  lemma Writes(s: State, t: Tid, p: Pkg)
    requires Empty(s.c) && s.c.dw == None && s.c.kind.Connected? && s.thread == Poll && s.lock == Sender(t)
    requires t in s.senders && s.senders[t] == Write(p) && |p.data| >= 2
    ensures var s' := Do(Do(Do(s, Work(t, 1)), Work(t, 0)), Work(t, 0));
            && s'.c == s.c.(dw := Some(Buffer(p, 1))) && s'.senders == s.senders[t := Waking]
            && s'.lock == Free && s'.thread == Poll && s'.pipe == s.pipe && s'.sending == s.sending
  {
    var s1 := Do(s, Work(t, 1));
    assert s1.senders == s.senders[t := Store(Buffer(p, 1))] && s1.c == s.c;
    var s2 := Do(s1, Work(t, 0));
    assert s2.senders == s.senders[t := Leave(true)];
  }

  lemma Moves1(s: State, b: Buf)
    requires Empty(s.c) && s.c.dw == Some(b) && s.c.kind.Connected? && s.thread == Poll && s.lock == Free
    ensures var s' := Do(Do(s, CanWrite), Go(Busy));
            && s'.c.high == [b] && s'.c.low == [] && s'.c.dw == None && s'.c.kind.Connected?
            && s'.lock == Free && s'.thread == Poll && s'.pipe == s.pipe && s'.sending == s.sending &&
                s'.senders == s.senders
  {
    assert Do(s, CanWrite).c.high == [b];
  }

  /** It takes the lock, finds nothing to wait for again, and writes one byte. */
  lemma WritesHalf(s: State, t: Tid, p: Pkg)
    requires Calm(s) && t in s.senders && s.senders[t] == TryLock(p) && |p.data| >= 2
    ensures var s' := Run(s, [Work(t, 0)] + (Steps(t, 5) + Half(t)));
            && s'.c.high == [Buffer(p, 1)] && s'.c.low == [] && s'.c.dw == None && s'.c.kind.Connected?
            && s'.lock == Free && s'.thread == Poll && s'.pipe == [] && s'.sending == 0
            && s'.senders == s.senders[t := Waking]
  {
    var s1 := To(s.(lock := Sender(t)), t, Probe(p, true, 0));
    var s2 := To(s.(lock := Sender(t)), t, Write(p));
    assert Do(s, Work(t, 0)) == s1;
    hide Do, Run, Steps, Half;
    ReadsPass(s1, t, p, true, 0);
    ToTwice(s.(lock := Sender(t)), t, Probe(p, true, 0), Write(p));
    Halves(s2, t, p);
    assert s2.senders[t := Waking] == s.senders[t := Waking];
    RunFirst(s, Work(t, 0), Steps(t, 5) + Half(t));
    RunMore(s1, Steps(t, 5), Half(t));
  }

  function Start(): State {
    State(Core(Connected, false, [], [], None, 0), 0, [], Free, map[1 := Idle, 2 := Idle], Poll, [], [], 0, 0,
          [], multiset{}, multiset{}, multiset{}, {}, Open, None, false)
  }

  function Beginning(): seq<Act> {
    Approach(2, [20]) + (Approach(1, [10, 11]) + ([Work(1, 0)] + (Steps(1, 5) + Half(1))))
  }

  function First(): State {
    To(Start().(clock := 1), 2, TryLock(Pkg(2, 0, false, [20], 0)))
  }

  /** Both senders are about to take the lock. */
  function Approached(): State {
    To(First().(clock := 2), 1, TryLock(Pkg(1, 1, false, [10, 11], 0)))
  }

  lemma OneApproaches()
    ensures Run(Start(), Approach(2, [20])) == First() && Calm(First()) && First().clock == 1
    ensures 1 in First().senders && First().senders[1] == Idle && !First().c.closing
  {
    Approaches(Start(), 2, [20]);
  }

  lemma BothApproach()
    ensures Run(Start(), Beginning()) == Run(Approached(), [Work(1, 0)] + (Steps(1, 5) + Half(1)))
  {
    hide Run, Approach, Steps, Half, Do, First, Start, Calm;
    OneApproaches();
    Approaches(First(), 1, [10, 11]);
    RunMore(Start(), Approach(2, [20]), Approach(1, [10, 11]) + ([Work(1, 0)] + (Steps(1, 5) + Half(1))));
    RunMore(First(), Approach(1, [10, 11]), [Work(1, 0)] + (Steps(1, 5) + Half(1)));
  }

  lemma BeginningExposes()
    ensures Opened(Start()) && Exposed(Run(Start(), Beginning()), 2, Pkg(2, 0, false, [20], 0))
    ensures Run(Start(), Beginning()).c.kind.Connected?
  {
    hide Run, Steps, Half, Do, Beginning;
    BothApproach();
    WritesHalf(Approached(), 1, Pkg(1, 1, false, [10, 11], 0));
  }
}
