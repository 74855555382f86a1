/** Packages keep their order: from the pipe, through the lists and the direct write, to the wire. */
module TcpOrder {
  import opened Wrappers
  import opened TcpSocket
  import opened TcpProtocol
  import opened TcpShape
  import opened TcpEffect

  // ----- which package has to come first -----

  /** Two sends of high priority by one sender, or two packages of one priority from the pipe. */
  predicate Before(x: Pkg, y: Pkg) {
    || (x.from == y.from && !x.low && !y.low && x.nr < y.nr)
    || (0 < x.ticket < y.ticket && x.low == y.low)
  }

  /** `x` may come before `y`. */
  predicate Fine(x: Pkg, y: Pkg) {
    !(x.from == y.from && x.nr == y.nr) && !Before(y, x)
  }

  predicate Tidy(q: seq<Pkg>) {
    forall i, j :: 0 <= i < j < |q| ==> Fine(q[i], q[j])
  }

  predicate Cross(a: seq<Pkg>, b: seq<Pkg>) {
    forall x, y :: x in a && y in b ==> Fine(x, y)
  }

  lemma TidyJoin(a: seq<Pkg>, b: seq<Pkg>)
    ensures Tidy(a + b) <==> Tidy(a) && Tidy(b) && Cross(a, b)
  {
    hide Fine;
    if Tidy(a + b) {
      forall i, j | 0 <= i < j < |b| ensures Fine(b[i], b[j]) {
        assert Fine((a + b)[|a| + i], (a + b)[|a| + j]);
      }
      forall i, j | 0 <= i < j < |a| ensures Fine(a[i], a[j]) {
        assert Fine((a + b)[i], (a + b)[j]);
      }
      forall x, y | x in a && y in b ensures Fine(x, y) {
        var i :| 0 <= i < |a| && a[i] == x;
        var j :| 0 <= j < |b| && b[j] == y;
        assert Fine((a + b)[i], (a + b)[|a| + j]);
      }
    }
    if Tidy(a) && Tidy(b) && Cross(a, b) {
      forall i, j | 0 <= i < j < |a + b| ensures Fine((a + b)[i], (a + b)[j]) {
        if i < |a| && |a| <= j { assert a[i] in a && b[j - |a|] in b; }
      }
    }
  }

  lemma TidyDrop(a: seq<Pkg>, b: seq<Pkg>, c: seq<Pkg>)
    requires Tidy(a + b + c)
    ensures Tidy(a + c)
  {
    hide Tidy, Fine;
    TidyJoin(a + b, c);
    TidyJoin(a, b);
    TidyJoin(a, c);
  }

  /** A package can be put where those before it may come before it and it before those after it. */
  lemma TidyInsert(a: seq<Pkg>, p: Pkg, c: seq<Pkg>)
    requires Tidy(a + c) && (forall x :: x in a ==> Fine(x, p)) && (forall y :: y in c ==> Fine(p, y))
    ensures Tidy(a + [p] + c)
  {
    assert Tidy([p]);
    hide Tidy, Fine;
    TidyJoin(a, c);
    TidyJoin(a, [p]);
    TidyJoin(a + [p], c);
  }

  /** A package of high priority may overtake packages of low priority. */
  lemma TidyOvertake(a: seq<Pkg>, b: seq<Pkg>, p: Pkg, c: seq<Pkg>)
    requires Tidy(a + b + [p] + c) && !p.low && forall y :: y in b ==> y.low
    ensures Tidy(a + [p] + b + c)
  {
    TidyJoin(a + b + [p], c);
    TidyJoin(a + b, [p]);
    assert p in [p] && p in a + b + [p];
    forall y | y in b ensures Fine(p, y) {
      assert y in a + b;
      assert Fine(y, p);
    }
    hide Tidy, Fine;
    TidyInsert(a, p, b);
    TidyJoin(a + [p] + b, c);
    assert forall x :: x in a + [p] + b ==> x in a + b + [p];
  }

  // ----- all packages on their way -----

  function Asked(pipe: seq<Cmd>): seq<Pkg> {
    if pipe == [] then [] else (if pipe[0].Send? then [pipe[0].p] else []) + Asked(pipe[1..])
  }

  lemma {:induction false} AskedMore(pipe: seq<Cmd>, cmd: Cmd)
    ensures Asked(pipe + [cmd]) == Asked(pipe) + if cmd.Send? then [cmd.p] else []
  {
    if pipe != [] {
      assert (pipe + [cmd])[1..] == pipe[1..] + [cmd];
      AskedMore(pipe[1..], cmd);
    } else {
      assert pipe + [cmd] == [cmd] && [cmd][1..] == [];
    }
  }

  /** What has been written of a package while the sender still holds the lock. */
  function Inflight(s: State): seq<Buf> {
    if s.lock.Sender? && s.lock.t in s.senders && s.senders[s.lock.t].Store? then [s.senders[s.lock.t].b] else []
  }

  /** Sent, next in line, asked for: in this order. */
  function Chain(s: State): seq<Pkg> {
    s.done + Pkgs(Inflight(s)) + Pkgs(Bufs(s.c)) + Asked(s.pipe)
  }

  /** The sender has read `sending == 0` and not sent since. */
  predicate Quiet(pc: Pc) {
    match pc
    case Probe(_, locked, stage) => locked || stage > 3
    case TryLock(_) => true
    case Write(_) => true
    case Store(_) => true
    case _ => false
  }

  /** None of these is a send of high priority by `t`. */
  predicate NoneBy(q: seq<Pkg>, t: Tid) {
    forall x :: x in q && x.from == t ==> x.low
  }

  predicate SenderOrder(s: State, t: Tid)
    requires t in s.senders
  {
    var pc := s.senders[t];
    && (Quiet(pc) ==> NoneBy(Asked(s.pipe), t))
    && (Past(pc, 0) ==> NoneBy(Pkgs(s.c.high), t))
    && (Pending(pc).Some? && !pc.Store? ==> forall x :: x in Chain(s) && x.from == t ==> x.nr < Pending(pc).value.nr)
  }

  ghost predicate OrderInv(s: State) {
    && Tidy(Chain(s))
    && (forall x :: x in Chain(s) ==> x.nr < s.clock && x.ticket <= s.tickets)
    && (forall t :: t in s.senders ==> SenderOrder(s, t))
  }

  // ----- how many are asked for -----

  function Pushers(s: State): set<Tid> {
    set t | t in s.senders && s.senders[t].Push?
  }

  function One(b: bool): nat {
    if b then 1 else 0
  }

  predicate CountInv(s: State) {
    s.sending == |Pushers(s)| + |Asked(s.pipe)| + One(s.thread.Dec?)
  }

  lemma PushersStep(s: State, s': State, t: Tid)
    requires t in s.senders && t in s'.senders && s'.senders == s.senders[t := s'.senders[t]]
    ensures |Pushers(s')| == |Pushers(s)| - One(s.senders[t].Push?) + One(s'.senders[t].Push?)
  {
    var rest := set u | u in s.senders && u != t && s.senders[u].Push?;
    assert Pushers(s) == if s.senders[t].Push? then rest + {t} else rest;
    assert Pushers(s') == if s'.senders[t].Push? then rest + {t} else rest;
  }

  lemma ThreadKeepsCount(s: State, a: Act)
    requires Shape(s) && CountInv(s)
    ensures CountInv(DoThread(s, a))
  {
    hide DoThread, Shape, Sound, Drops, Queues, SendsFirst, SameData, Asked;
    ShapeIsSound(s);
    ThreadGoes(s, a);
    ThreadEffect(s, a);
    var s' := DoThread(s, a);
    assert Pushers(s') == Pushers(s);
    if SendsFirst(s, s') { SendsFacts(s, s'); }
    else if Drops(s, s') {
      DropsFacts(s, s');
      SameAsked(s, s');
    } else if Rests(s, s') { SameAsked(s, s'); }
    else {
      if Queues(s, s') { QueuesFacts(s, s'); }
      AskedLess(s, s');
    }
  }

  lemma SenderKeepsCount(s: State, t: Tid, n: nat)
    requires Shape(s) && CountInv(s) && t in s.senders
    ensures CountInv(DoSender(s, t, s.senders[t], n))
  {
    SenderMoves(s, t, n);
    var s' := DoSender(s, t, s.senders[t], n);
    PushersStep(s, s', t);
    SenderCounts(s, t, n);
    hide Shape, Moves, Pushers, Asked, DoSender;
  }

  /** A sender raises the count before it pushes, and its request takes its place in the count. */
  lemma SenderCounts(s: State, t: Tid, n: nat)
    requires t in s.senders
    ensures var s' := DoSender(s, t, s.senders[t], n);
            t in s'.senders &&
            s'.sending - |Asked(s'.pipe)| - One(s'.senders[t].Push?) ==
            s.sending - |Asked(s.pipe)| - One(s.senders[t].Push?)
  {
    if s.senders[t].Probe? || s.senders[t].Write? { StillMoves(s, t, n); }
    AskedMore(s.pipe, Wake);
    if s.senders[t].Push? { AskedMore(s.pipe, Send(s.senders[t].p.(ticket := s.tickets + 1))); }
    hide Probed, Written, Asked;
  }

  // ----- a step of a sender -----

  lemma SenderInflight(s: State, s': State, t: Tid)
    requires LockInv(s) && LockInv(s') && t in s.senders && Moves(s, s', t)
    ensures Locked(s.senders[t]) ==> Inflight(s) == if s.senders[t].Store? then [s.senders[t].b] else []
    ensures Locked(s'.senders[t]) ==> Inflight(s') == if s'.senders[t].Store? then [s'.senders[t].b] else []
    ensures !s.senders[t].Store? && !s'.senders[t].Store? ==> Inflight(s') == Inflight(s)
    ensures s.senders[t].Store? && !s'.senders[t].Store? ==> Inflight(s') == []
  {
  }

  /** The parts of the chain after a step that neither stores, writes nor pushes. */
  lemma SenderRests(s: State, t: Tid, n: nat)
    requires t in s.senders
    requires !s.senders[t].Store? && !s.senders[t].Write? && !s.senders[t].Push?
    ensures var s' := DoSender(s, t, s.senders[t], n);
            && s'.done == s.done && s'.c == s.c && Asked(s'.pipe) == Asked(s.pipe) && !s'.senders[t].Store?
            && SameData(s, s') && s'.accepted == s.accepted && s'.tickets == s.tickets && s'.refused == s.refused
  {
    if s.senders[t].Probe? { StillMoves(s, t, n); }
    hide Probed;
    if s.senders[t].Waking? { AskedMore(s.pipe, Wake); }
    hide Asked;
  }

  lemma WritesOne(s: State, t: Tid, p: Pkg, n: nat)
    requires Shape(s) && t in s.senders && s.senders[t] == Write(p)
    ensures var s' := DoSender(s, t, s.senders[t], n);
            && s'.pipe == s.pipe && s'.tickets == s.tickets && s'.c == s.c
            && Inflight(s) == [] && t in s'.senders
            && ((s'.senders[t] == Leave(false) && Inflight(s') == [] && s'.done == s.done + [p])
                || (s'.senders[t].Store? && s'.senders[t].b.p == p && Inflight(s') == [s'.senders[t].b] &&
                    s'.done == s.done))
  {
    SenderMoves(s, t, n);
    SenderKeepsShape(s, t, n);
    SenderInflight(s, DoSender(s, t, s.senders[t], n), t);
    hide Shape, Moves, Inflight;
  }

  lemma WriteChain(s: State, t: Tid, p: Pkg, n: nat)
    requires Shape(s) && t in s.senders && s.senders[t] == Write(p)
    ensures var s' := DoSender(s, t, s.senders[t], n);
            && Chain(s) == s.done + (Pkgs(Bufs(s.c)) + Asked(s.pipe))
            && Chain(s') == s.done + [p] + (Pkgs(Bufs(s.c)) + Asked(s.pipe))
  {
    var s' := DoSender(s, t, s.senders[t], n);
    WritesOne(s, t, p, n);
    hide Shape, DoSender, Inflight, Asked, Bufs;
    assert Pkgs(Inflight(s)) == [];
    assert Pkgs(Inflight(s')) == if s'.senders[t].Store? then [p] else [];
  }

  lemma PushChain(s: State, t: Tid, p: Pkg, n: nat)
    requires Shape(s) && t in s.senders && s.senders[t] == Push(p)
    ensures Chain(DoSender(s, t, s.senders[t], n)) == Chain(s) + [p.(ticket := s.tickets + 1)]
  {
    var s' := DoSender(s, t, s.senders[t], n);
    SenderMoves(s, t, n);
    SenderKeepsShape(s, t, n);
    SenderInflight(s, s', t);
    hide Shape, Moves, Inflight, Asked, Bufs, Pkgs;
    AskedMore(s.pipe, Send(p.(ticket := s.tickets + 1)));
  }

  lemma StoredPkgs(b: Buf, q: seq<Buf>)
    ensures Pkgs([]) == [] && Pkgs([b] + q) == Pkgs([b]) + Pkgs(q)
  {
    PkgsJoin([b], q);
  }

  lemma StoreFacts(s: State, t: Tid, b: Buf, n: nat)
    requires Shape(s) && t in s.senders && s.senders[t] == Store(b)
    ensures var s' := DoSender(s, t, s.senders[t], n);
            && s.c.dw == None && Inflight(s) == [b] && Inflight(s') == []
            && s'.c == s.c.(dw := Some(b)) && s'.done == s.done && s'.pipe == s.pipe
  {
    SenderMoves(s, t, n);
    SenderKeepsShape(s, t, n);
    SenderInflight(s, DoSender(s, t, s.senders[t], n), t);
    assert SeenOk(s, s.senders[t]);
    StoreOne(s, t, b, n);
    hide Shape, Moves, Inflight, DoSender;
  }

  lemma StoreChain(s: State, t: Tid, b: Buf, n: nat)
    requires Shape(s) && t in s.senders && s.senders[t] == Store(b)
    ensures Chain(DoSender(s, t, s.senders[t], n)) == Chain(s)
  {
    hide Shape, Inflight, Asked, DoSender, Bufs, Pkgs;
    StoreFacts(s, t, b, n);
    StoreBufs(s.c, b);
    StoredPkgs(b, Bufs(s.c));
  }

  lemma RestChain(s: State, t: Tid, n: nat)
    requires Shape(s) && t in s.senders
    requires !s.senders[t].Store? && !s.senders[t].Write? && !s.senders[t].Push?
    ensures Chain(DoSender(s, t, s.senders[t], n)) == Chain(s)
  {
    SenderMoves(s, t, n);
    SenderKeepsShape(s, t, n);
    SenderInflight(s, DoSender(s, t, s.senders[t], n), t);
    hide Shape, Moves, Inflight, Asked, DoSender, Bufs, Pkgs;
    SenderRests(s, t, n);
  }

  /** A direct write may come before everything still stored or asked for. */
  lemma WriteInOrder(s: State, t: Tid, p: Pkg)
    requires Shape(s) && OrderInv(s) && t in s.senders && s.senders[t] == Write(p)
    ensures (forall x :: x in Chain(s) ==> Fine(x, p)) &&
            (forall y :: y in Pkgs(Bufs(s.c)) + Asked(s.pipe) ==> Fine(p, y))
  {
    assert PendingOk(s, t) && SeenOk(s, s.senders[t]) && SenderOrder(s, t);
    assert Bufs(s.c) == s.c.high + s.c.low;
    PkgsJoin(s.c.high, s.c.low);
    hide Tidy, LockInv, SendersInv, Fresh, Inflight, Asked;
    forall y | y in Pkgs(Bufs(s.c)) + Asked(s.pipe) ensures Fine(p, y) {
      assert y in Chain(s);
    }
  }

  lemma ProbeLearns(s: State, t: Tid, p: Pkg, locked: bool, stage: nat)
    requires CountInv(s)
    ensures var s', pc := Probed(s, t, p, locked, stage), Probe(p, locked, stage);
            t in s'.senders && s'.c == s.c &&
            var pc' := s'.senders[t];
            && (Quiet(pc') ==> Quiet(pc) || Asked(s.pipe) == [])
            && (Past(pc', 0) ==> Past(pc, 0) || s.c.high == [])
            && Pending(pc') == Some(p)
  {
    hide Asked, Pushers;
  }

  /** A sender learns that nothing is asked for when it reads `sending == 0`, and that the high
      list is empty when it reads so under the lock. */
  lemma Learns(s: State, t: Tid, n: nat)
    requires CountInv(s) && t in s.senders
    requires !s.senders[t].Write? && !s.senders[t].Push?
    ensures var s', pc := DoSender(s, t, s.senders[t], n), s.senders[t];
            t in s'.senders &&
            var pc' := s'.senders[t];
            && (Quiet(pc') ==> Quiet(pc) || Asked(s.pipe) == [])
            && (Past(pc', 0) ==> Past(pc, 0) || s.c.high == [])
            && (Pending(pc').Some? ==> Pending(pc') == Pending(pc) && !pc.Store?)
            && s'.c.high == s.c.high
  {
    hide Asked, Pushers, Probed;
    if s.senders[t].Probe? { ProbeLearns(s, t, s.senders[t].p, s.senders[t].locked, s.senders[t].stage); }
  }

  /** What the stepping sender knows afterwards, if it neither writes nor pushes. */
  lemma StepOrder(s: State, t: Tid, n: nat)
    requires Shape(s) && CountInv(s) && OrderInv(s) && t in s.senders
    requires !s.senders[t].Write? && !s.senders[t].Push?
    ensures var s' := DoSender(s, t, s.senders[t], n);
            t in s'.senders && SenderOrder(s', t) && Asked(s'.pipe) == Asked(s.pipe) && s'.tickets == s.tickets
  {
    Learns(s, t, n);
    if s.senders[t].Store? {
      StoreChain(s, t, s.senders[t].b, n);
    } else {
      RestChain(s, t, n);
      SenderRests(s, t, n);
    }
    assert s.senders[t].Store? ==>
             DoSender(s, t, s.senders[t], n).pipe == s.pipe && DoSender(s, t, s.senders[t], n).tickets == s.tickets;
    assert SenderOrder(s, t);
    hide Shape, Chain, Asked, DoSender, OrderInv, CountInv;
  }

  lemma WriteOthers(s: State, s': State, t: Tid, p: Pkg)
    requires Shape(s) && OrderInv(s) && t in s.senders && s.senders[t] == Write(p)
    requires Moves(s, s', t) && s'.pipe == s.pipe && s'.tickets == s.tickets && s'.c == s.c
    requires s'.senders[t] == Leave(false) || (s'.senders[t].Store? && s'.senders[t].b.p == p)
    requires Tidy(Chain(s')) && forall x :: x in Chain(s') <==> x in Chain(s) || x == p
    ensures OrderInv(s')
  {
    hide Tidy, Chain, Asked, Fresh;
    assert PendingOk(s, t) && SeenOk(s, s.senders[t]) && SenderOrder(s, t);
    hide Shape, SeenOk;
    forall u | u in s'.senders ensures SenderOrder(s', u) {
      assert SenderOrder(s, u);
    }
  }

  lemma PushOthers(s: State, s': State, t: Tid, p: Pkg)
    requires Shape(s) && OrderInv(s) && t in s.senders && s.senders[t] == Push(p)
    requires Moves(s, s', t) && s'.c == s.c && s'.tickets == s.tickets + 1 && s'.senders[t] == Idle
    requires Chain(s') == Chain(s) + [p.(ticket := s.tickets + 1)]
    requires Asked(s'.pipe) == Asked(s.pipe) + [p.(ticket := s.tickets + 1)]
    ensures OrderInv(s')
  {
    hide Tidy, Chain, Asked, Fresh;
    assert PendingOk(s, t) && SenderOrder(s, t);
    hide Shape, SeenOk;
    var q := p.(ticket := s.tickets + 1);
    assert Chain(s) + [] == Chain(s) && Chain(s) + [q] + [] == Chain(s) + [q];
    TidyInsert(Chain(s), q, []);
    forall u | u in s'.senders ensures SenderOrder(s', u) {
      assert SenderOrder(s, u);
    }
  }

  lemma RestOthers(s: State, s': State, t: Tid)
    requires OrderInv(s) && t in s.senders && Moves(s, s', t) && s'.tickets == s.tickets
    requires Chain(s') == Chain(s) && Asked(s'.pipe) == Asked(s.pipe) && SenderOrder(s', t)
    ensures OrderInv(s')
  {
    hide Tidy, Chain, Asked, Fresh;
    forall u | u in s'.senders ensures SenderOrder(s', u) {
      assert u != t ==> SenderOrder(s, u);
    }
  }

  lemma SenderKeepsOrder(s: State, t: Tid, n: nat)
    requires Shape(s) && CountInv(s) && OrderInv(s) && t in s.senders
    ensures OrderInv(DoSender(s, t, s.senders[t], n))
  {
    var s', pc := DoSender(s, t, s.senders[t], n), s.senders[t];
    SenderMoves(s, t, n);
    match pc
    case Write(p) =>
      var rest := Pkgs(Bufs(s.c)) + Asked(s.pipe);
      WriteChain(s, t, p, n);
      WriteInOrder(s, t, p);
      TidyInsert(s.done, p, rest);
      WritesOne(s, t, p, n);
      hide Shape, Moves, OrderInv, DoSender, Asked, Bufs;
      WriteOthers(s, s', t, p);
    case Push(p) =>
      PushChain(s, t, p, n);
      AskedMore(s.pipe, Send(p.(ticket := s.tickets + 1)));
      hide Shape, Moves, OrderInv, Chain, Asked, Bufs;
      PushOthers(s, s', t, p);
    case Store(b) =>
      StoreChain(s, t, b, n);
      StepOrder(s, t, n);
      hide Shape, Moves, OrderInv, Chain, DoSender, Asked, Bufs, SenderOrder;
      RestOthers(s, s', t);
    case _ =>
      RestChain(s, t, n);
      StepOrder(s, t, n);
      hide Shape, Moves, OrderInv, Chain, DoSender, Asked, Bufs, SenderOrder;
      RestOthers(s, s', t);
  }

  // ----- a step of the socket thread -----

  /** The chain is kept, a high priority package overtakes low ones, or some packages leave it. */
  predicate Thins(q: seq<Pkg>, q': seq<Pkg>) {
    (Tidy(q) ==> Tidy(q')) && forall x :: x in q' ==> x in q
  }

  lemma ThinsDrop(a: seq<Pkg>, b: seq<Pkg>, c: seq<Pkg>)
    ensures Thins(a + b + c, a + c)
  {
    if Tidy(a + b + c) { TidyDrop(a, b, c); }
  }

  lemma SameInflight(s: State, s': State)
    requires LockInv(s) && Leaves(s, s')
    ensures Inflight(s') == Inflight(s)
  {
  }

  /** Taking a request other than a send from the pipe. */
  lemma SameAsked(s: State, s': State)
    requires SamePipe(s, s')
    ensures Asked(s'.pipe) == Asked(s.pipe)
  {
    if s'.pipe != s.pipe { assert Asked(s.pipe) == [] + Asked(s.pipe[1..]); }
  }

  lemma QueuesThins(s: State, s': State)
    requires LockInv(s) && Leaves(s, s') && Queues(s, s')
    ensures Thins(Chain(s), Chain(s'))
  {
    SameInflight(s, s');
    QueuesFacts(s, s');
    var p, b, k := s.pipe[0].p, Bufs(s.c), Place(s.c, s.pipe[0].p);
    assert p.low ==> k == |b|;
    assert Asked(s.pipe) == [p] + Asked(s'.pipe);
    assert AllLow(b[k..]) && Bufs(s'.c) == b[..k] + [Buffer(p, 0)] + b[k..];
    hide LockInv, Leaves, Bufs, Tidy, Inflight, Asked, Queues, Place;
    InsertedPkgs(b[..k], Buffer(p, 0), b[k..]);
    assert b == b[..k] + b[k..];
    ThinsInsert(s.done + Pkgs(Inflight(s)), Pkgs(b[..k]), Pkgs(b[k..]), p, Asked(s'.pipe));
  }

  lemma InsertedPkgs(a: seq<Buf>, x: Buf, b: seq<Buf>)
    ensures Pkgs(a + b) == Pkgs(a) + Pkgs(b) && Pkgs(a + [x] + b) == Pkgs(a) + [x.p] + Pkgs(b)
    ensures AllLow(b) ==> forall y :: y in Pkgs(b) ==> y.low
  {
    PkgsJoin(a, b);
    PkgsJoin(a, [x]);
    PkgsJoin(a + [x], b);
  }

  lemma SameMembers(a: seq<Pkg>, b: seq<Pkg>, p: Pkg, c: seq<Pkg>)
    ensures forall y :: y in a + [p] + b + c ==> y in a + b + [p] + c
  {
    forall y | y in a + [p] + b + c ensures y in a + b + [p] + c {
      assert y in a || y in b || y == p || y in c;
      assert [p][0] == p;
      assert y in a + b || y in [p] || y in c;
    }
  }

  /** A package taken from the pipe is put before packages of low priority only. */
  lemma ThinsInsert(x: seq<Pkg>, a: seq<Pkg>, b: seq<Pkg>, p: Pkg, c: seq<Pkg>)
    requires (p.low ==> b == []) && forall y :: y in b ==> y.low
    ensures Thins(x + (a + b) + ([p] + c), x + (a + [p] + b) + c)
  {
    hide Tidy;
    var q := x + a + b + [p] + c;
    var q' := x + a + [p] + b + c;
    assert x + (a + b) + ([p] + c) == q && x + (a + [p] + b) + c == q';
    if p.low {
      assert q' == q;
    } else {
      if Tidy(q) { TidyOvertake(x + a, b, p, c); }
      SameMembers(x + a, b, p, c);
    }
  }

  lemma TurnsAwayThins(s: State, s': State)
    requires LockInv(s) && Leaves(s, s') && TurnsAway(s, s')
    ensures Thins(Chain(s), Chain(s'))
  {
    SameInflight(s, s');
    hide LockInv, Leaves, Bufs, Tidy, Inflight;
    var front := s.done + Pkgs(Inflight(s)) + Pkgs(Bufs(s.c));
    assert Asked(s.pipe) == [s.pipe[0].p] + Asked(s.pipe[1..]);
    assert Chain(s) == front + [s.pipe[0].p] + Asked(s'.pipe);
    ThinsDrop(front, [s.pipe[0].p], Asked(s'.pipe));
  }

  lemma SendsSame(s: State, s': State)
    requires LockInv(s) && Leaves(s, s') && SendsFirst(s, s')
    ensures Chain(s') == Chain(s)
  {
    SameInflight(s, s');
    assert Inflight(s) == [];
    var b, n := Bufs(s.c)[0], |s'.wire| - |s.wire|;
    var rest := Bufs(s.c)[1..];
    hide LockInv, Leaves, Bufs, Inflight, Asked;
    assert Bufs(s.c) == [b] + rest;
    PkgsJoin([b], rest);
    if n < Left(b) { PkgsJoin([Advanced(b, n)], rest); }
  }

  lemma DropsThins(s: State, s': State)
    requires LockInv(s) && Leaves(s, s') && Drops(s, s')
    ensures Thins(Chain(s), Chain(s'))
  {
    SameInflight(s, s');
    SameAsked(s, s');
    var gone := Bufs(s.c)[|Bufs(s'.c)|..];
    assert Bufs(s.c) == Bufs(s'.c) + gone;
    DropsFacts(s, s');
    hide LockInv, Leaves, Bufs, Inflight, Asked, Drops, Pkgs;
    PkgsJoin(Bufs(s'.c), gone);
    var front := s.done + Pkgs(Inflight(s)) + Pkgs(Bufs(s'.c));
    assert Chain(s) == front + Pkgs(gone) + Asked(s.pipe);
    ThinsDrop(front, Pkgs(gone), Asked(s.pipe));
  }

  lemma AskedLess(s: State, s': State)
    requires TakesSend(s, s')
    ensures Asked(s.pipe) == [s.pipe[0].p] + Asked(s'.pipe)
  {
  }

  lemma ThreadChain(s: State, s': State)
    requires LockInv(s) && Leaves(s, s') && Effect(s, s')
    ensures Thins(Chain(s), Chain(s')) && forall x :: x in Asked(s'.pipe) ==> x in Asked(s.pipe)
  {
    SameInflight(s, s');
    hide LockInv, Leaves, Bufs, Inflight, Queues, SendsFirst, Drops, Asked, Counts, Tidy;
    if Rests(s, s') {
      SameAsked(s, s');
    } else if Queues(s, s') {
      QueuesThins(s, s');
      QueuesFacts(s, s');
      AskedLess(s, s');
    } else if TurnsAway(s, s') {
      TurnsAwayThins(s, s');
      AskedLess(s, s');
    } else if SendsFirst(s, s') {
      SendsSame(s, s');
      SendsFacts(s, s');
    } else {
      DropsThins(s, s');
      DropsFacts(s, s');
      SameAsked(s, s');
    }
  }

  /** While a sender holds the lock, what enters the high list was in a list or asked for. */
  lemma HighAfter(s: State, s': State, x: Pkg)
    requires Sound(s) && Leaves(s, s') && Effect(s, s') && s.lock.Sender? && x in Pkgs(s'.c.high)
    ensures x.low || x in Pkgs(s.c.high) || x in Asked(s.pipe)
  {
    var i :| 0 <= i < |s'.c.high| && s'.c.high[i].p == x;
    var b, j := s'.c.high[i], |AsSeq(s.c.dw)| + i;
    assert AllLow(s.c.low) && s'.c.dw == s.c.dw && !SendsFirst(s, s');
    assert Bufs(s'.c)[j] == b;
    hide Sound, Leaves, Fresh, Counts;
    if Queues(s, s') {
      assert Asked(s.pipe) == [s.pipe[0].p] + Asked(s.pipe[1..]);
      if x != s.pipe[0].p {
        var k := Place(s.c, s.pipe[0].p);
        assert b == if j < k then Bufs(s.c)[j] else Bufs(s.c)[j - 1];
        if j >= k { assert Bufs(s.c)[k..][j - 1 - k].p.low; }
        else { FromLists(s.c, j); }
      }
    } else {
      assert Bufs(s'.c) <= Bufs(s.c);
      assert Bufs(s.c)[j] == b;
      FromLists(s.c, j);
    }
  }

  lemma FromLists(c: Core, j: nat)
    requires AllLow(c.low) && |AsSeq(c.dw)| <= j < |Bufs(c)|
    ensures Bufs(c)[j].p.low || Bufs(c)[j].p in Pkgs(c.high)
  {
    var i := j - |AsSeq(c.dw)|;
    if i < |c.high| {
      assert Pkgs(c.high)[i] == Bufs(c)[j].p;
    } else {
      assert Bufs(c)[j] == c.low[i - |c.high|];
    }
  }

  lemma OthersOrder(s: State, s': State, u: Tid)
    requires Shape(s) && Sound(s) && Leaves(s, s') && Effect(s, s') && u in s.senders && SenderOrder(s, u)
    requires Thins(Chain(s), Chain(s')) && forall x :: x in Asked(s'.pipe) ==> x in Asked(s.pipe)
    ensures SenderOrder(s', u)
  {
    hide Chain, Asked, Tidy, Effect, Sound, SendersInv;
    if Past(s.senders[u], 0) {
      assert s.lock == Sender(u);
      forall x | x in Pkgs(s'.c.high) && x.from == u ensures x.low { HighAfter(s, s', x); }
    }
  }

  lemma ThreadKeepsOrder(s: State, a: Act)
    requires Shape(s) && OrderInv(s)
    ensures OrderInv(DoThread(s, a))
  {
    var s' := DoThread(s, a);
    assert Sound(s);
    ThreadGoes(s, a);
    ThreadEffect(s, a);
    ThreadChain(s, s');
    assert (forall x :: x in Chain(s') ==> x.nr < s'.clock && x.ticket <= s'.tickets) && Tidy(Chain(s'));
    hide DoThread, Sound, SendersInv, Tidy, Chain, Asked, Effect;
    forall u | u in s'.senders ensures SenderOrder(s', u) { OthersOrder(s, s', u); }
  }
}
