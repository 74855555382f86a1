/** Every package accepted is accounted for: sent, stored, asked for, turned away or discarded. */
module TcpAccount {
  import opened Wrappers
  import opened TcpSocket
  import opened TcpProtocol
  import opened TcpShape
  import opened TcpEffect
  import opened TcpOrder

  predicate Accounted(s: State) {
    s.accepted == multiset(s.done) + Bag(Bufs(s.c)) + multiset(Asked(s.pipe)) + s.refused + s.lost
  }

  lemma BagJoin(a: seq<Buf>, b: seq<Buf>)
    ensures Bag(a + b) == Bag(a) + Bag(b)
  {
    PkgsJoin(a, b);
  }

  lemma BagOne(b: Buf)
    ensures Bag([b]) == multiset{b.p}
  {
    assert Pkgs([b]) == [b.p];
  }

  predicate Balance(accepted: multiset<Pkg>, done: seq<Pkg>, stored: multiset<Pkg>, asked: seq<Pkg>,
                    gone: multiset<Pkg>) {
    accepted == multiset(done) + stored + multiset(asked) + gone
  }

  lemma Balanced(s: State)
    ensures Accounted(s) <==> Balance(s.accepted, s.done, Bag(Bufs(s.c)), Asked(s.pipe), s.refused + s.lost)
  {
    hide Bag, Bufs, Asked;
  }

  lemma BalanceMore(accepted: multiset<Pkg>, done: seq<Pkg>, stored: multiset<Pkg>, asked: seq<Pkg>,
                    gone: multiset<Pkg>, p: Pkg)
    requires Balance(accepted, done, stored, asked, gone)
    ensures Balance(accepted + multiset{p}, done + [p], stored, asked, gone)
    ensures Balance(accepted + multiset{p}, done, multiset{p} + stored, asked, gone)
    ensures Balance(accepted + multiset{p}, done, stored, asked + [p], gone)
  {
  }

  lemma StoreAccounts(s: State, t: Tid, b: Buf, n: nat)
    requires Shape(s) && Accounted(s) && t in s.senders && s.senders[t] == Store(b)
    ensures Accounted(DoSender(s, t, s.senders[t], n))
  {
    var s' := DoSender(s, t, s.senders[t], n);
    assert s.c.dw == None by { assert SeenOk(s, s.senders[t]); }
    StoreOne(s, t, b, n);
    hide Shape, Balance, Accounted, Bag, Asked, DoSender, Bufs;
    StoreBufs(s.c, b);
    Balanced(s);
    Balanced(s');
    BagJoin([b], Bufs(s.c));
    BagOne(b);
    BalanceMore(s.accepted, s.done, Bag(Bufs(s.c)), Asked(s.pipe), s.refused + s.lost, b.p);
  }

  lemma WriteAccounts(s: State, t: Tid, p: Pkg, n: nat)
    requires Accounted(s) && t in s.senders && s.senders[t] == Write(p)
    ensures Accounted(DoSender(s, t, s.senders[t], n))
  {
    hide Balance, Accounted, Bag, Bufs, Asked;
    Balanced(s);
    Balanced(DoSender(s, t, s.senders[t], n));
    BalanceMore(s.accepted, s.done, Bag(Bufs(s.c)), Asked(s.pipe), s.refused + s.lost, p);
  }

  lemma PushAccounts(s: State, t: Tid, p: Pkg, n: nat)
    requires Accounted(s) && t in s.senders && s.senders[t] == Push(p)
    ensures Accounted(DoSender(s, t, s.senders[t], n))
  {
    hide Balance, Accounted, Bag, Bufs, Asked;
    var q := p.(ticket := s.tickets + 1);
    Balanced(s);
    Balanced(DoSender(s, t, s.senders[t], n));
    AskedMore(s.pipe, Send(q));
    BalanceMore(s.accepted, s.done, Bag(Bufs(s.c)), Asked(s.pipe), s.refused + s.lost, q);
  }

  lemma SameAccount(s: State, s': State)
    requires Accounted(s) && s'.done == s.done && s'.c == s.c && Asked(s'.pipe) == Asked(s.pipe)
    requires s'.accepted == s.accepted && s'.refused == s.refused && s'.lost == s.lost
    ensures Accounted(s')
  {
  }

  lemma SenderAccounts(s: State, t: Tid, n: nat)
    requires Shape(s) && Accounted(s) && t in s.senders
    ensures Accounted(DoSender(s, t, s.senders[t], n))
  {
    hide Shape, DoSender, Bag, Bufs, Asked, Accounted;
    match s.senders[t]
    case Write(p) => WriteAccounts(s, t, p, n);
    case Store(b) => StoreAccounts(s, t, b, n);
    case Push(p) => PushAccounts(s, t, p, n);
    case _ =>
      SenderRests(s, t, n);
      SameAccount(s, DoSender(s, t, s.senders[t], n));
  }

  lemma QueuesAccounts(s: State, s': State)
    requires Queues(s, s') && s'.accepted == s.accepted && Accounted(s)
    ensures Accounted(s')
  {
    var p, q := s.pipe[0].p, Bufs(s.c);
    var k := Place(s.c, p);
    var one := [Buffer(p, 0)];
    assert Asked(s.pipe) == [p] + Asked(s'.pipe);
    assert q == q[..k] + q[k..];
    assert Bufs(s'.c) == q[..k] + one + q[k..];
    QueuesFacts(s, s');
    hide Bag, Asked, Bufs, Queues, Accounted, Balance;
    Balanced(s);
    Balanced(s');
    BagInsert(q[..k], one[0], q[k..]);
    BalanceTaken(s.accepted, s.done, Bag(q), Asked(s'.pipe), s.refused + s.lost, p);
  }

  lemma BagInsert(a: seq<Buf>, b: Buf, c: seq<Buf>)
    ensures Bag(a + [b] + c) == multiset{b.p} + Bag(a + c)
  {
    hide Bag;
    BagJoin(a, c);
    BagJoin(a + [b], c);
    BagJoin(a, [b]);
    BagOne(b);
  }

  lemma BalanceTaken(accepted: multiset<Pkg>, done: seq<Pkg>, stored: multiset<Pkg>, asked: seq<Pkg>,
                     gone: multiset<Pkg>,
                     p: Pkg)
    requires Balance(accepted, done, stored, [p] + asked, gone)
    ensures Balance(accepted, done, multiset{p} + stored, asked, gone)
  {
  }

  lemma SendsAccounts(s: State, s': State)
    requires SendsFirst(s, s') && s'.accepted == s.accepted && Accounted(s)
    ensures Accounted(s')
  {
    SendsBag(s, s');
    hide Bag, Asked, Bufs, Balance, Accounted, SendsFirst;
    Balanced(s);
    Balanced(s');
    BalanceSent(s.accepted, s.done, Bag(Bufs(s'.c)), Asked(s.pipe), s.refused + s.lost, Bufs(s.c)[0].p);
  }

  lemma SendsBag(s: State, s': State)
    requires SendsFirst(s, s')
    ensures Bufs(s.c) != [] && s'.pipe == s.pipe && s'.refused == s.refused && s'.lost == s.lost
    ensures var p := Bufs(s.c)[0].p;
            if s'.done == s.done then Bag(Bufs(s'.c)) == Bag(Bufs(s.c))
            else s'.done == s.done + [p] && Bag(Bufs(s.c)) == multiset{p} + Bag(Bufs(s'.c))
  {
    var b, rest, n := Bufs(s.c)[0], Bufs(s.c)[1..], |s'.wire| - |s.wire|;
    hide Bag, Bufs, Span;
    assert Bufs(s.c) == [b] + rest;
    FirstInBag(b, rest);
    if n < Left(b) { FirstInBag(Advanced(b, n), rest); }
  }

  lemma FirstInBag(b: Buf, q: seq<Buf>)
    ensures Bag([b] + q) == multiset{b.p} + Bag(q)
  {
    BagJoin([b], q);
    BagOne(b);
  }

  lemma BalanceSent(accepted: multiset<Pkg>, done: seq<Pkg>, stored: multiset<Pkg>, asked: seq<Pkg>,
                    gone: multiset<Pkg>, p: Pkg)
    ensures Balance(accepted, done, multiset{p} + stored, asked, gone) <==>
            Balance(accepted, done + [p], stored, asked, gone)
  {
  }

  lemma DropsAccounts(s: State, s': State)
    requires Drops(s, s') && s'.accepted == s.accepted && Accounted(s)
    ensures Accounted(s')
  {
    SameAsked(s, s');
    hide Bag, Asked, Bufs, SamePipe, Head;
    var gone := Bufs(s.c)[|Bufs(s'.c)|..];
    assert Bufs(s.c) == Bufs(s'.c) + gone;
    BagJoin(Bufs(s'.c), gone);
  }

  lemma ThreadAccounts(s: State, a: Act)
    requires Shape(s) && Accounted(s)
    ensures Accounted(DoThread(s, a))
  {
    assert Sound(s);
    ThreadEffect(s, a);
    var s' := DoThread(s, a);
    hide Shape, Sound, DoThread, Bag, Queues, SendsFirst, Drops, Counts;
    if Queues(s, s') { QueuesAccounts(s, s'); }
    else if SendsFirst(s, s') { SendsAccounts(s, s'); }
    else if Drops(s, s') { DropsAccounts(s, s'); }
    else if Rests(s, s') {
      SameAsked(s, s');
      hide Asked, Bufs;
    } else {
      assert Asked(s.pipe) == [s.pipe[0].p] + Asked(s'.pipe);
      hide Asked, Bufs;
    }
  }
}
