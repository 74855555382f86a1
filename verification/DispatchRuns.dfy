/** What the operations of the scheduling protocol lead to when their thread goes on without another one coming
    between: launching, failing to launch, sending, killing, and one dispatch of a worker. */
module DispatchRuns {
  import opened Wrappers
  import opened Bits
  import opened MessageQueue
  import opened Dispatch

  /** The next `k` steps of a thread. */
  function Alone(s: State, t: Tid, weight: int, k: nat): State
    decreases k
  {
    if k == 0 then s else Alone(Do(s, t, Go(weight)), t, weight, k - 1)
  }

  /** The thread's own steps lead from `s` to `s'`. */
  ghost predicate Leads(s: State, t: Tid, weight: int, s': State) {
    exists k: nat :: Alone(s, t, weight, k) == s'
  }

  lemma LeadsSelf(s: State, t: Tid, weight: int)
    ensures Leads(s, t, weight, s)
  {
    assert Alone(s, t, weight, 0) == s;
  }

  lemma LeadsNext(s: State, t: Tid, weight: int, s': State)
    requires Leads(Do(s, t, Go(weight)), t, weight, s')
    ensures Leads(s, t, weight, s')
  {
    var k: nat :| Alone(Do(s, t, Go(weight)), t, weight, k) == s';
    assert Alone(s, t, weight, k + 1) == s';
  }

  lemma {:induction false} AloneMore(s: State, t: Tid, weight: int, j: nat, k: nat)
    ensures Alone(s, t, weight, j + k) == Alone(Alone(s, t, weight, j), t, weight, k)
    decreases j
  {
    if j > 0 { AloneMore(Do(s, t, Go(weight)), t, weight, j - 1, k); }
  }

  lemma LeadsOn(s: State, t: Tid, weight: int, s1: State, s2: State)
    requires Leads(s, t, weight, s1) && Leads(s1, t, weight, s2)
    ensures Leads(s, t, weight, s2)
  {
    var j: nat :| Alone(s, t, weight, j) == s1;
    var k: nat :| Alone(s1, t, weight, k) == s2;
    AloneMore(s, t, weight, j, k);
  }

  /** The service, the list and the thread after some steps that touch nothing else. */
  function Changed(s: State, t: Tid, h: Handle, v: Service, listed: bool, pc: Pc): State {
    To(ToGlobal(Set(s, h, v), h, listed), t, pc)
  }

  lemma ChangedTwice(s: State, t: Tid, h: Handle, v: Service, v': Service, listed: bool, pc: Pc, pc': Pc)
    ensures Changed(Changed(s, t, h, v, false, pc), t, h, v', listed, pc') == Changed(s, t, h, v', listed, pc')
    ensures Changed(Changed(s, t, h, v, listed, pc), t, h, v', false, pc') == Changed(s, t, h, v', listed, pc')
  {
  }

  // ----- single steps of a thread that is at work on one service -----

  lemma GoRelease(s: State, t: Tid, weight: int, h: Handle, next: Pc)
    requires t in s.threads && s.threads[t] == Release(h, next) && h in s.services
    ensures var v := s.services[h];
            Do(s, t, Go(weight)) ==
            Changed(s, t, h, v.(ref := v.ref - 1), false, if v.ref == 1 then Mark(h, IfGone(next)) else next)
  {
  }

  lemma GoMark(s: State, t: Tid, weight: int, h: Handle, next: Pc)
    requires t in s.threads && s.threads[t] == Mark(h, next) && h in s.services
    ensures var v := s.services[h];
            Do(s, t, Go(weight)) ==
            Changed(s, t, h, v.(queue := v.queue.(release := true)), !v.queue.inGlobal, next)
  {
  }

  lemma GoRetire(s: State, t: Tid, weight: int, h: Handle, next: Pc)
    requires t in s.threads && s.threads[t] == Retire(h, next) && h in s.services
    ensures var v := s.services[h];
            Do(s, t, Go(weight)) ==
            Changed(s, t, h, v.(registered := false), false, if v.registered then Release(h, next) else next)
  {
    var v := s.services[h];
    assert Set(s, h, v) == s;
    if !v.registered { assert v.(registered := false) == v; }
  }

  lemma GoPublish(s: State, t: Tid, weight: int, h: Handle, next: Pc)
    requires t in s.threads && s.threads[t] == Publish(h, next) && h in s.services
    ensures Do(s, t, Go(weight)) == Changed(s, t, h, s.services[h], true, next)
  {
    assert Set(s, h, s.services[h]) == s;
  }

  lemma GoLaunched(s: State, t: Tid, weight: int, h: Handle, next: Pc)
    requires t in s.threads && s.threads[t] == Launched(h, next) && h in s.services
    ensures Do(s, t, Go(weight)) == Changed(s, t, h, s.services[h].(init := true), false, next)
  {
  }

  lemma GoAnnounce(s: State, t: Tid, weight: int, h: Handle)
    requires t in s.threads && s.threads[t] == Announce(h) && h in s.services
    ensures Do(s, t, Go(weight)) == Changed(s, t, h, s.services[h], false, Idle)
  {
    assert Set(s, h, s.services[h]) == s;
  }

  lemma GoMqRelease(s: State, t: Tid, weight: int, h: Handle, next: Pc)
    requires t in s.threads && s.threads[t] == MqRelease(h, next) && h in s.services
    ensures var v := s.services[h];
            Do(s, t, Go(weight)) ==
            Changed(s, t, h, v, !v.queue.release, if v.queue.release then Drop(h, next) else next)
  {
    assert Set(s, h, s.services[h]) == s;
  }

  lemma GoDrop(s: State, t: Tid, weight: int, h: Handle, next: Pc)
    requires t in s.threads && s.threads[t] == Drop(h, next) && h in s.services
    ensures var v := s.services[h];
            var q := v.queue.msgs;
            Do(s, t, Go(weight)) ==
            if q == [] then Changed(s, t, h, v.(queue := v.queue.(inGlobal := false), freed := true), false, next)
            else Changed(s, t, h, v.(queue := v.queue.(msgs := q[1..]), fates := v.fates + [Dropped(q[0])]), false,
                         Drop(h, next))
  {
    assert To(s, t, Drop(h, next)) == s;
  }

  lemma GoSending(s: State, t: Tid, weight: int, h: Handle, m: Msg)
    requires t in s.threads && s.threads[t] == Sending(h, m) && h in s.services
    ensures var v := s.services[h];
            Do(s, t, Go(weight)) ==
            Changed(s, t, h, v.(queue := Queue(v.queue.msgs + [m], true, v.queue.release), pushed := v.pushed + [m]),
                    !v.queue.inGlobal, Release(h, Idle))
  {
  }

  /** One more step on the way. */
  lemma Then(s: State, t: Tid, weight: int, h: Handle, v: Service, v': Service, listed: bool, more: bool, pc: Pc,
             pc': Pc, s': State)
    requires Do(Changed(s, t, h, v, listed, pc), t, Go(weight)) ==
             Changed(Changed(s, t, h, v, listed, pc), t, h, v', more, pc')
    requires !listed || !more
    requires Leads(Changed(s, t, h, v', listed || more, pc'), t, weight, s')
    ensures Leads(Changed(s, t, h, v, listed, pc), t, weight, s')
  {
    hide Do, Alone;
    if listed {
      ChangedTwice(s, t, h, v, v', listed, pc, pc');
    } else {
      ChangedTwice(s, t, h, v, v', more, pc, pc');
    }
    LeadsNext(Changed(s, t, h, v, listed, pc), t, weight, s');
  }

  lemma At(s: State, t: Tid, h: Handle, v: Service, listed: bool, pc: Pc)
    ensures var s' := Changed(s, t, h, v, listed, pc);
            t in s'.threads && s'.threads[t] == pc && h in s'.services && s'.services[h] == v
  {
  }

  // ----- launching -----

  /** A launch that succeeds leaves the service registered, launched, and once in the list. */
  lemma LaunchLeads(s: State, t: Tid, h: Handle)
    requires t in s.threads && s.threads[t] == Idle && h !in s.services
    ensures Leads(Do(Do(s, t, New(h)), t, Succeed), t, 0,
                  Changed(s, t, h, Service(true, 1, true, Queue([], true, false), false, [], [], []), true, Idle))
  {
    var v, after := NewService(), Publish(h, Announce(h));
    assert Do(Do(s, t, New(h)), t, Succeed) == Changed(s, t, h, v, false, Release(h, Launched(h, after)));
    hide Do, Alone, Changed, Leads;
    var v1, v2 := v.(ref := 1), v.(ref := 1, init := true);
    var end := Changed(s, t, h, v2, true, Idle);
    LeadsSelf(end, t, 0);
    At(s, t, h, v2, true, Announce(h));
    GoAnnounce(Changed(s, t, h, v2, true, Announce(h)), t, 0, h);
    Then(s, t, 0, h, v2, v2, true, false, Announce(h), Idle, end);
    At(s, t, h, v2, false, after);
    GoPublish(Changed(s, t, h, v2, false, after), t, 0, h, Announce(h));
    Then(s, t, 0, h, v2, v2, false, true, after, Announce(h), end);
    At(s, t, h, v1, false, Launched(h, after));
    GoLaunched(Changed(s, t, h, v1, false, Launched(h, after)), t, 0, h, after);
    Then(s, t, 0, h, v1, v2, false, false, Launched(h, after), after, end);
    At(s, t, h, v, false, Release(h, Launched(h, after)));
    GoRelease(Changed(s, t, h, v, false, Release(h, Launched(h, after))), t, 0, h, Launched(h, after));
    Then(s, t, 0, h, v, v1, false, false, Release(h, Launched(h, after)), Launched(h, after), end);
  }

  function AllDropped(q: seq<Msg>): (f: seq<Fate>)
    ensures |f| == |q|
  {
    seq(|q|, i requires 0 <= i < |q| => Dropped(q[i]))
  }

  function AllDelivered(q: seq<Msg>): (f: seq<Fate>)
    ensures |f| == |q|
  {
    seq(|q|, i requires 0 <= i < |q| => Delivered(q[i]))
  }

  /** A queue that is dropped: each message once and in order, then it is freed. */
  function Discarded(v: Service): Service {
    v.(queue := Queue([], false, v.queue.release), fates := v.fates + AllDropped(v.queue.msgs), freed := true)
  }

  lemma {:induction false} DropLeads(s: State, t: Tid, weight: int, h: Handle, v: Service, listed: bool, next: Pc)
    ensures Leads(Changed(s, t, h, v, listed, Drop(h, next)), t, weight, Changed(s, t, h, Discarded(v), listed, next))
    decreases |v.queue.msgs|
  {
    var q := v.queue.msgs;
    At(s, t, h, v, listed, Drop(h, next));
    GoDrop(Changed(s, t, h, v, listed, Drop(h, next)), t, weight, h, next);
    hide Do, Alone, Changed, Leads;
    if q == [] {
      assert v.fates + AllDropped(q) == v.fates;
      LeadsSelf(Changed(s, t, h, Discarded(v), listed, next), t, weight);
      Then(s, t, weight, h, v, Discarded(v), listed, false, Drop(h, next), next,
           Changed(s, t, h, Discarded(v), listed, next));
    } else {
      var v' := v.(queue := v.queue.(msgs := q[1..]), fates := v.fates + [Dropped(q[0])]);
      DropLeads(s, t, weight, h, v', listed, next);
      assert v'.fates + AllDropped(q[1..]) == v.fates + AllDropped(q);
      Then(s, t, weight, h, v, v', listed, false, Drop(h, next), Drop(h, next),
           Changed(s, t, h, Discarded(v), listed, next));
    }
  }

  /** The last reference is given up, and the queue is the thread's own: it goes with the service. */
  lemma GiveUpLeads(s: State, t: Tid, weight: int, h: Handle, v: Service, next: Pc)
    requires v.ref == 1 && v.queue.inGlobal && !next.Launched?
    ensures Leads(Changed(s, t, h, v, false, Release(h, next)), t, weight,
                  Changed(s, t, h, v.(ref := 0, queue := v.queue.(release := true)), false, next))
  {
    hide Do, Alone, Changed, Leads;
    var v1 := v.(ref := 0);
    var v2 := v.(ref := 0, queue := v.queue.(release := true));
    LeadsSelf(Changed(s, t, h, v2, false, next), t, weight);
    At(s, t, h, v1, false, Mark(h, next));
    GoMark(Changed(s, t, h, v1, false, Mark(h, next)), t, weight, h, next);
    Then(s, t, weight, h, v1, v2, false, false, Mark(h, next), next, Changed(s, t, h, v2, false, next));
    At(s, t, h, v, false, Release(h, next));
    GoRelease(Changed(s, t, h, v, false, Release(h, next)), t, weight, h, next);
    Then(s, t, weight, h, v, v1, false, false, Release(h, next), Mark(h, next), Changed(s, t, h, v2, false, next));
  }

  /** `skynet_mq_release`: a released queue is dropped, another one goes back to the list. */
  function Unowned(v: Service): Service {
    if v.queue.release then Discarded(v) else v
  }

  lemma MqReleaseLeads(s: State, t: Tid, weight: int, h: Handle, v: Service, next: Pc)
    ensures Leads(Changed(s, t, h, v, false, MqRelease(h, next)), t, weight,
                  Changed(s, t, h, Unowned(v), !v.queue.release, next))
  {
    At(s, t, h, v, false, MqRelease(h, next));
    GoMqRelease(Changed(s, t, h, v, false, MqRelease(h, next)), t, weight, h, next);
    hide Do, Alone, Changed, Leads;
    var end := Changed(s, t, h, Unowned(v), !v.queue.release, next);
    if v.queue.release {
      DropLeads(s, t, weight, h, v, false, next);
      Then(s, t, weight, h, v, v, false, false, MqRelease(h, next), Drop(h, next), end);
    } else {
      LeadsSelf(end, t, weight);
      Then(s, t, weight, h, v, v, false, true, MqRelease(h, next), next, end);
    }
  }

  /** The service without one reference, released if that was the last. */
  function GivenUp(v: Service): Service {
    v.(ref := v.ref - 1, queue := v.queue.(release := v.queue.release || v.ref == 1))
  }

  lemma ReleaseLeads(s: State, t: Tid, weight: int, h: Handle, v: Service, next: Pc)
    requires v.queue.inGlobal && !next.Launched?
    ensures Leads(Changed(s, t, h, v, false, Release(h, next)), t, weight, Changed(s, t, h, GivenUp(v), false, next))
  {
    hide Do, Alone, Changed, Leads;
    if v.ref == 1 {
      GiveUpLeads(s, t, weight, h, v, next);
    } else {
      At(s, t, h, v, false, Release(h, next));
      GoRelease(Changed(s, t, h, v, false, Release(h, next)), t, weight, h, next);
      LeadsSelf(Changed(s, t, h, GivenUp(v), false, next), t, weight);
      Then(s, t, weight, h, v, GivenUp(v), false, false, Release(h, next), next,
           Changed(s, t, h, GivenUp(v), false, next));
    }
  }

  function Retired(v: Service): Service {
    if v.registered then GivenUp(v.(registered := false)) else v
  }

  lemma RetireLeads(s: State, t: Tid, weight: int, h: Handle, v: Service, next: Pc)
    requires v.queue.inGlobal && !next.Launched?
    ensures Leads(Changed(s, t, h, v, false, Retire(h, next)), t, weight, Changed(s, t, h, Retired(v), false, next))
  {
    At(s, t, h, v, false, Retire(h, next));
    GoRetire(Changed(s, t, h, v, false, Retire(h, next)), t, weight, h, next);
    hide Do, Alone, Changed, Leads;
    var v1, end := v.(registered := false), Changed(s, t, h, Retired(v), false, next);
    if v.registered {
      ReleaseLeads(s, t, weight, h, v1, next);
      Then(s, t, weight, h, v, v1, false, false, Retire(h, next), Release(h, next), end);
    } else {
      assert v1 == v;
      LeadsSelf(end, t, weight);
      Then(s, t, weight, h, v, v1, false, false, Retire(h, next), next, end);
    }
  }

  /** The service of a failed launch: gone, or, while others hold it, without its creator and its handle. */
  function Failed(v: Service): Service {
    if v.ref == 1 + One(v.registered)
    then v.(registered := false, ref := 0, queue := Queue([], false, true), freed := true,
            fates := v.fates + AllDropped(v.queue.msgs))
    else v.(registered := false, ref := v.ref - 1 - One(v.registered))
  }

  lemma FailedIs(v: Service)
    requires v.queue.inGlobal && !v.queue.release && v.ref >= 1 + One(v.registered)
    ensures var v2 := Retired(GivenUp(v));
            Unowned(v2) == Failed(v) && (v2.queue.release <==> v.ref == 1 + One(v.registered))
    ensures GivenUp(v).queue.inGlobal
  {
    var v2 := Retired(GivenUp(v));
    assert v2.registered == false && v2.ref == v.ref - 1 - One(v.registered);
    assert v2.queue.msgs == v.queue.msgs && v2.fates == v.fates;
  }

  lemma FailSteps(s: State, t: Tid, h: Handle, v: Service)
    requires v.queue.inGlobal && !v.queue.release && v.ref >= 1 + One(v.registered)
    ensures Leads(Changed(s, t, h, v, false, Release(h, Retire(h, MqRelease(h, Idle)))), t, 0,
                  Changed(s, t, h, Failed(v), v.ref != 1 + One(v.registered), Idle))
  {
    FailedIs(v);
    hide Do, Alone, Changed, Leads, GivenUp, Retired, Unowned, Failed;
    var next := Retire(h, MqRelease(h, Idle));
    var s0, v1 := Changed(s, t, h, v, false, Release(h, next)), GivenUp(v);
    var v2 := Retired(v1);
    ReleaseLeads(s, t, 0, h, v, next);
    RetireLeads(s, t, 0, h, v1, MqRelease(h, Idle));
    MqReleaseLeads(s, t, 0, h, v2, Idle);
    LeadsOn(s0, t, 0, Changed(s, t, h, v1, false, next), Changed(s, t, h, v2, false, MqRelease(h, Idle)));
    LeadsOn(s0, t, 0, Changed(s, t, h, v2, false, MqRelease(h, Idle)),
            Changed(s, t, h, Failed(v), !v2.queue.release, Idle));
  }

  /** A launch that fails gives up the creator's reference, retires the handle and leaves the queue: if no other
      reference is left, all messages are dropped and the queue is freed; otherwise it goes to the list. */
  lemma FailLeads(s: State, t: Tid, h: Handle)
    requires Inv(s) && t in s.threads && s.threads[t] == Init(h)
    ensures h in s.services
    ensures var v := s.services[h];
            v.ref >= 1 + One(v.registered) &&
            Leads(Do(s, t, Fail), t, 0, Changed(s, t, h, Failed(v), v.ref != 1 + One(v.registered), Idle))
  {
    hide Inv, Do, Alone, Changed, Leads, Failed;
    CreatorsQueue(s, t, h);
    FailBegins(s, t, h);
    FailSteps(s, t, h, s.services[h]);
  }

  lemma FailBegins(s: State, t: Tid, h: Handle)
    requires t in s.threads && s.threads[t] == Init(h) && h in s.services
    ensures Do(s, t, Fail) == Changed(s, t, h, s.services[h], false, Release(h, Retire(h, MqRelease(h, Idle))))
  {
    assert Set(s, h, s.services[h]) == s;
  }

  lemma CreatorsQueue(s: State, t: Tid, h: Handle)
    requires Inv(s) && t in s.threads && s.threads[t] == Init(h)
    ensures h in s.services
    ensures var v := s.services[h];
            v.queue.inGlobal && !v.queue.release && v.ref >= 1 + One(v.registered)
  {
    Knows(s, t, Holder(h));
    Knows(s, t, Owner(h));
    hide Inv;
    var w := ViewOf(s, h);
    assert Local(s.services[h], w);
  }

  // ----- killing and sending -----

  /** Killing retires the handle; the last reference releases the queue and lists it, so that a worker frees it. */
  lemma KillLeads(s: State, t: Tid, h: Handle)
    requires t in s.threads && s.threads[t] == Idle
    ensures Leads(Do(s, t, Kill(h)), t, 0,
                  if h !in s.services || !s.services[h].registered then s
                  else
                    var v := s.services[h];
                    if v.ref == 1 then Changed(s, t, h,
                                               v.(registered := false, ref := 0, queue := v.queue.(release := true)),
                                               !v.queue.inGlobal, Idle)
                    else Changed(s, t, h, v.(registered := false, ref := v.ref - 1), false, Idle))
  {
    var s1 := To(s, t, Retire(h, Idle));
    assert Do(s, t, Kill(h)) == s1;
    assert To(s1, t, Idle) == s;
    if h !in s.services || !s.services[h].registered {
      assert Do(s1, t, Go(0)) == s;
      hide Do, Alone, Leads;
      LeadsSelf(s, t, 0);
      LeadsNext(s1, t, 0, s);
    } else {
      var v := s.services[h];
      assert Set(s, h, v) == s && s1 == Changed(s, t, h, v, false, Retire(h, Idle));
      hide Do, Alone, Changed, Leads;
      KillRegistered(s, t, h, v);
    }
  }

  lemma KillRegistered(s: State, t: Tid, h: Handle, v: Service)
    requires v.registered
    ensures Leads(Changed(s, t, h, v, false, Retire(h, Idle)), t, 0,
                  if v.ref == 1 then Changed(s, t, h,
                                             v.(registered := false, ref := 0, queue := v.queue.(release := true)),
                                             !v.queue.inGlobal, Idle)
                  else Changed(s, t, h, v.(registered := false, ref := v.ref - 1), false, Idle))
  {
    hide Do, Alone, Changed, Leads;
    var v1 := v.(registered := false);
    var v2 := v.(registered := false, ref := v.ref - 1);
    At(s, t, h, v, false, Retire(h, Idle));
    GoRetire(Changed(s, t, h, v, false, Retire(h, Idle)), t, 0, h, Idle);
    At(s, t, h, v1, false, Release(h, Idle));
    GoRelease(Changed(s, t, h, v1, false, Release(h, Idle)), t, 0, h, Idle);
    if v.ref == 1 {
      var v3 := v2.(queue := v.queue.(release := true));
      var end := Changed(s, t, h, v3, !v.queue.inGlobal, Idle);
      At(s, t, h, v2, false, Mark(h, Idle));
      GoMark(Changed(s, t, h, v2, false, Mark(h, Idle)), t, 0, h, Idle);
      LeadsSelf(end, t, 0);
      Then(s, t, 0, h, v2, v3, false, !v.queue.inGlobal, Mark(h, Idle), Idle, end);
      Then(s, t, 0, h, v1, v2, false, false, Release(h, Idle), Mark(h, Idle), end);
      Then(s, t, 0, h, v, v1, false, false, Retire(h, Idle), Release(h, Idle), end);
    } else {
      var end := Changed(s, t, h, v2, false, Idle);
      LeadsSelf(end, t, 0);
      Then(s, t, 0, h, v1, v2, false, false, Release(h, Idle), Idle, end);
      Then(s, t, 0, h, v, v1, false, false, Retire(h, Idle), Release(h, Idle), end);
    }
  }

  /** A message to a registered service is the last in its queue, which is in the list if nobody had it; another
      one goes nowhere. */
  lemma SendLeads(s: State, t: Tid, h: Handle, m: Msg)
    requires Inv(s) && t in s.threads && s.threads[t] == Idle
    ensures Leads(Do(s, t, Send(h, m)), t, 0,
                  if h !in s.services || !s.services[h].registered then s
                  else
                    var v := s.services[h];
                    Changed(s, t, h, v.(queue := Queue(v.queue.msgs + [m], true, v.queue.release),
                                        pushed := v.pushed + [m]),
                            !v.queue.inGlobal, Idle))
  {
    hide Inv, Do, Alone, Changed, Leads;
    DoSend(s, t, h, m);
    if h !in s.services || !s.services[h].registered {
      LeadsSelf(s, t, 0);
    } else {
      var v := s.services[h];
      RegisteredIsHeld(s, h);
      SendRegistered(s, t, h, v, m);
    }
  }

  lemma DoSend(s: State, t: Tid, h: Handle, m: Msg)
    requires t in s.threads && s.threads[t] == Idle
    ensures Do(s, t, Send(h, m)) ==
            if h !in s.services || !s.services[h].registered then s
            else Changed(s, t, h, s.services[h].(ref := s.services[h].ref + 1), false, Sending(h, m))
  {
    assert To(s, t, Idle) == s;
  }

  lemma RegisteredIsHeld(s: State, h: Handle)
    requires Inv(s) && h in s.services && s.services[h].registered
    ensures s.services[h].ref >= 1
  {
    assert Local(s.services[h], ViewOf(s, h));
  }

  lemma SendRegistered(s: State, t: Tid, h: Handle, v: Service, m: Msg)
    requires v.ref >= 1
    ensures Leads(Changed(s, t, h, v.(ref := v.ref + 1), false, Sending(h, m)), t, 0,
                  Changed(s, t, h, v.(queue := Queue(v.queue.msgs + [m], true, v.queue.release),
                                      pushed := v.pushed + [m]),
                          !v.queue.inGlobal, Idle))
  {
    hide Do, Alone, Changed, Leads;
    var v1 := v.(ref := v.ref + 1);
    var v3 := v.(queue := Queue(v.queue.msgs + [m], true, v.queue.release), pushed := v.pushed + [m]);
    var v2 := v3.(ref := v.ref + 1);
    var end := Changed(s, t, h, v3, !v.queue.inGlobal, Idle);
    LeadsSelf(end, t, 0);
    At(s, t, h, v2, !v.queue.inGlobal, Release(h, Idle));
    GoRelease(Changed(s, t, h, v2, !v.queue.inGlobal, Release(h, Idle)), t, 0, h, Idle);
    Then(s, t, 0, h, v2, v3, !v.queue.inGlobal, false, Release(h, Idle), Idle, end);
    At(s, t, h, v1, false, Sending(h, m));
    GoSending(Changed(s, t, h, v1, false, Sending(h, m)), t, 0, h, m);
    Then(s, t, 0, h, v1, v2, false, !v.queue.inGlobal, Sending(h, m), Release(h, Idle), end);
  }

  // ----- one dispatch -----

  /** A shift to the right divides by a power of two. */
  lemma {:induction false} ShiftDivides(n: nat, weight: nat)
    ensures Shift(n, weight) == Over(n, Exp2(weight))
  {
    if weight > 0 {
      ShiftDivides(n / 2, weight - 1);
      Halved(n, Exp2(weight - 1));
    }
  }

  /** How many messages one dispatch takes from a queue of `len`: one, or, at a weight, the rest of the queue
      divided by a power of two. */
  function Batch(len: nat, weight: int): (n: nat)
    requires len > 0
  {
    if weight < 0 || Over(len - 1, Exp2(weight)) == 0 then 1 else Over(len - 1, Exp2(weight))
  }

  lemma BatchFits(len: nat, weight: int)
    requires len > 0
    ensures 1 <= Batch(len, weight) <= len
  {
    if weight >= 0 {
      var q, r := Divided(len - 1, Exp2(weight));
      Less(len - 1, q, Exp2(weight));
      assert q <= len - 1 by { if q > len - 1 { AtLeast(q, Exp2(weight)); } }
    }
  }

  lemma AtLeast(q: nat, p: nat)
    requires p > 0
    ensures q * p >= q
  {
    Less(0, p, q);
  }

  lemma GoRun(s: State, t: Tid, weight: int, h: Handle, i: nat, n: nat)
    requires t in s.threads && s.threads[t] == Run(h, i, n) && h in s.services
    ensures var v := s.services[h];
            var q := v.queue.msgs;
            Do(s, t, Go(weight)) ==
            if i >= n then Changed(s, t, h, v, false, After(h))
            else if q == [] then Changed(s, t, h, v.(queue := v.queue.(inGlobal := false)), false, Release(h, Fetch))
            else Changed(s, t, h, v.(queue := v.queue.(msgs := q[1..]), taken := [q[0]]), false, Deliver(h, q[0], i, n))
  {
    assert Set(s, h, s.services[h]) == s;
  }

  lemma GoDeliver(s: State, t: Tid, weight: int, h: Handle, m: Msg, i: nat, n: nat)
    requires t in s.threads && s.threads[t] == Deliver(h, m, i, n) && h in s.services
    ensures var v := s.services[h];
            Do(s, t, Go(weight)) ==
            Changed(s, t, h, v.(fates := v.fates + [Delivered(m)], taken := []), false,
                    Run(h, i + 1, if i == 0 && weight >= 0 then Shift(|v.queue.msgs|, weight) else n))
  {
  }

  /** The service after the first `k` messages of its queue have been delivered. */
  function Served(v: Service, k: nat): Service
    requires k <= |v.queue.msgs|
  {
    v.(queue := v.queue.(msgs := v.queue.msgs[k..]), fates := v.fates + AllDelivered(v.queue.msgs[..k]), taken := [])
  }

  lemma ServedOne(v: Service, k: nat)
    requires k < |v.queue.msgs|
    ensures var m := v.queue.msgs[0];
            var v1 := v.(queue := v.queue.(msgs := v.queue.msgs[1..]), fates := v.fates + [Delivered(m)], taken := []);
            Served(v1, k) == Served(v, k + 1)
  {
    var q := v.queue.msgs;
    assert q[1..][k..] == q[k + 1..];
    assert v.fates + [Delivered(q[0])] + AllDelivered(q[1..][..k]) == v.fates + AllDelivered(q[..k + 1]);
  }

  lemma ServedNone(v: Service)
    requires v.taken == []
    ensures Served(v, 0) == v
  {
    assert v.queue.msgs[0..] == v.queue.msgs;
    assert v.fates + AllDelivered([]) == v.fates;
  }

  /** The first message is taken and delivered, and the size of the batch is found. */
  lemma OneLeads(s: State, t: Tid, weight: int, h: Handle, v: Service, i: nat, n: nat, s': State)
    requires i < n && v.queue.msgs != []
    requires var q := v.queue.msgs;
             var v1 := v.(queue := v.queue.(msgs := q[1..]), fates := v.fates + [Delivered(q[0])], taken := []);
             var n' := if i == 0 && weight >= 0 then Shift(|q| - 1, weight) else n;
             Leads(Changed(s, t, h, v1, false, Run(h, i + 1, n')), t, weight, s')
    ensures Leads(Changed(s, t, h, v, false, Run(h, i, n)), t, weight, s')
  {
    hide Do, Alone, Changed, Leads, Shift;
    var q := v.queue.msgs;
    var v0 := v.(queue := v.queue.(msgs := q[1..]), taken := [q[0]]);
    var v1 := v.(queue := v.queue.(msgs := q[1..]), fates := v.fates + [Delivered(q[0])], taken := []);
    var n' := if i == 0 && weight >= 0 then Shift(|q| - 1, weight) else n;
    At(s, t, h, v0, false, Deliver(h, q[0], i, n));
    GoDeliver(Changed(s, t, h, v0, false, Deliver(h, q[0], i, n)), t, weight, h, q[0], i, n);
    Then(s, t, weight, h, v0, v1, false, false, Deliver(h, q[0], i, n), Run(h, i + 1, n'), s');
    At(s, t, h, v, false, Run(h, i, n));
    GoRun(Changed(s, t, h, v, false, Run(h, i, n)), t, weight, h, i, n);
    Then(s, t, weight, h, v, v0, false, false, Run(h, i, n), Deliver(h, q[0], i, n), s');
  }

  lemma {:induction false} RestLeads(s: State, t: Tid, weight: int, h: Handle, v: Service, i: nat, n: nat)
    requires i > 0 && v.taken == [] && (i < n ==> n - i <= |v.queue.msgs|)
    ensures Leads(Changed(s, t, h, v, false, Run(h, i, n)), t, weight,
                  Changed(s, t, h, Served(v, if i < n then n - i else 0), false, After(h)))
    decreases n - i
  {
    hide Do, Alone, Changed, Leads, Served, Shift;
    if i >= n {
      var end := Changed(s, t, h, v, false, After(h));
      ServedNone(v);
      LeadsSelf(end, t, weight);
      At(s, t, h, v, false, Run(h, i, n));
      GoRun(Changed(s, t, h, v, false, Run(h, i, n)), t, weight, h, i, n);
      Then(s, t, weight, h, v, v, false, false, Run(h, i, n), After(h), end);
    } else {
      var q := v.queue.msgs;
      var v1 := v.(queue := v.queue.(msgs := q[1..]), fates := v.fates + [Delivered(q[0])], taken := []);
      RestLeads(s, t, weight, h, v1, i + 1, n);
      if i + 1 >= n { ServedNone(v1); }
      ServedOne(v, n - i - 1);
      OneLeads(s, t, weight, h, v, i, n, Changed(s, t, h, Served(v, n - i), false, After(h)));
    }
  }

  /** One dispatch delivers so many messages from the head of the queue, in order, and leaves the rest; an empty
      queue goes out of service. */
  lemma BatchLeads(s: State, t: Tid, weight: int, h: Handle)
    requires t in s.threads && s.threads[t] == Run(h, 0, 1) && h in s.services && s.services[h].taken == []
    ensures var v := s.services[h];
            var len := |v.queue.msgs|;
            if len == 0
            then Do(s, t, Go(weight)) == Changed(s, t, h, v.(queue := v.queue.(inGlobal := false)), false,
                                                 Release(h, Fetch))
            else Batch(len, weight) <= len &&
                 Leads(s, t, weight, Changed(s, t, h, Served(v, Batch(len, weight)), false, After(h)))
  {
    var v := s.services[h];
    var q := v.queue.msgs;
    if q == [] {
      GoRun(s, t, weight, h, 0, 1);
    } else {
      assert Set(s, h, v) == s && s == Changed(s, t, h, v, false, Run(h, 0, 1));
      hide Do, Alone, Changed, Leads, Served, Shift;
      BatchFits(|q|, weight);
      if weight >= 0 { ShiftDivides(|q| - 1, weight); }
      var b := Batch(|q|, weight);
      var n' := if weight >= 0 then Shift(|q| - 1, weight) else 1;
      var v1 := v.(queue := v.queue.(msgs := q[1..]), fates := v.fates + [Delivered(q[0])], taken := []);
      RestLeads(s, t, weight, h, v1, 1, n');
      ServedOne(v, b - 1);
      OneLeads(s, t, weight, h, v, 0, 1, Changed(s, t, h, Served(v, b), false, After(h)));
    }
  }

  // ----- from one queue to the next -----

  /** A worker without a queue takes the first of the list: it runs a registered service, frees a released queue,
      and puts another one back. */
  lemma FetchLeads(s: State, t: Tid, weight: int)
    requires Inv(s) && t in s.threads && s.threads[t] == Fetch && s.global != []
    ensures s.global[0] in s.services
    ensures var h, s1 := s.global[0], s.(global := s.global[1..]);
            var v := s.services[h];
            Leads(s, t, weight,
                  if v.registered then Changed(s1, t, h, v.(ref := v.ref + 1), false, Run(h, 0, 1))
                  else Changed(s1, t, h, Unowned(v), !v.queue.release, Fetch))
  {
    var h, s1 := s.global[0], s.(global := s.global[1..]);
    hide Inv, Do, Alone, Changed, Leads;
    ListedKnown(s, h);
    var v := s.services[h];
    GoFetch(s, t, weight);
    HoldLeads(s1, t, weight, h, v);
    LeadsNext(s, t, weight, if v.registered then Changed(s1, t, h, v.(ref := v.ref + 1), false, Run(h, 0, 1))
                            else Changed(s1, t, h, Unowned(v), !v.queue.release, Fetch));
  }

  lemma GoFetch(s: State, t: Tid, weight: int)
    requires t in s.threads && s.threads[t] == Fetch && s.global != [] && s.global[0] in s.services
    ensures var h, s1 := s.global[0], s.(global := s.global[1..]);
            Do(s, t, Go(weight)) == Changed(s1, t, h, s.services[h], false, Hold(h))
  {
    var h, s1 := s.global[0], s.(global := s.global[1..]);
    assert Set(s1, h, s.services[h]) == s1;
  }

  lemma GoAfter(s: State, t: Tid, weight: int, h: Handle)
    requires t in s.threads && s.threads[t] == After(h) && h in s.services
    ensures Do(s, t, Go(weight)) ==
            if s.global == [] then Changed(s, t, h, s.services[h], false, Release(h, Hold(h)))
            else Changed(s.(global := s.global[1..]), t, h, s.services[h], false,
                         Publish(h, Release(h, Hold(s.global[0]))))
  {
    assert Set(s, h, s.services[h]) == s;
    if s.global != [] {
      var s1 := s.(global := s.global[1..]);
      assert Set(s1, h, s1.services[h]) == s1;
    }
  }

  lemma GoHold(s: State, t: Tid, weight: int, h: Handle)
    requires t in s.threads && s.threads[t] == Hold(h) && h in s.services
    ensures var v := s.services[h];
            Do(s, t, Go(weight)) ==
            if v.registered then Changed(s, t, h, v.(ref := v.ref + 1), false, Run(h, 0, 1))
            else Changed(s, t, h, v, false, MqRelease(h, Fetch))
  {
    assert Set(s, h, s.services[h]) == s;
  }

  lemma HoldLeads(s: State, t: Tid, weight: int, h: Handle, v: Service)
    ensures Leads(Changed(s, t, h, v, false, Hold(h)), t, weight,
                  if v.registered then Changed(s, t, h, v.(ref := v.ref + 1), false, Run(h, 0, 1))
                  else Changed(s, t, h, Unowned(v), !v.queue.release, Fetch))
  {
    At(s, t, h, v, false, Hold(h));
    GoHold(Changed(s, t, h, v, false, Hold(h)), t, weight, h);
    hide Do, Alone, Changed, Leads;
    if v.registered {
      var v1 := v.(ref := v.ref + 1);
      LeadsSelf(Changed(s, t, h, v1, false, Run(h, 0, 1)), t, weight);
      Then(s, t, weight, h, v, v1, false, false, Hold(h), Run(h, 0, 1), Changed(s, t, h, v1, false, Run(h, 0, 1)));
    } else {
      MqReleaseLeads(s, t, weight, h, v, Fetch);
      Then(s, t, weight, h, v, v, false, false, Hold(h), MqRelease(h, Fetch),
           Changed(s, t, h, Unowned(v), !v.queue.release, Fetch));
    }
  }

  /** After a dispatch a worker keeps its queue if no other one waits; otherwise it puts it at the end of the list
      and goes on with the first.  Either way it gives the context up. */
  lemma AfterLeads(s: State, t: Tid, weight: int, h: Handle)
    requires Inv(s) && t in s.threads && s.threads[t] == After(h)
    ensures h in s.services
    ensures Leads(s, t, weight,
                  if s.global == [] then Changed(s, t, h, GivenUp(s.services[h]), false, Hold(h))
                  else Changed(s.(global := s.global[1..]), t, h, GivenUp(s.services[h]), true, Hold(s.global[0])))
  {
    hide Inv, Do, Alone, Changed, Leads;
    OwnersQueue(s, t, h);
    GoAfter(s, t, weight, h);
    var v := s.services[h];
    if s.global == [] {
      ReleaseLeads(s, t, weight, h, v, Hold(h));
      LeadsNext(s, t, weight, Changed(s, t, h, GivenUp(v), false, Hold(h)));
    } else {
      var q, s1 := s.global[0], s.(global := s.global[1..]);
      NextQueue(s1, t, weight, h, v, q);
      LeadsNext(s, t, weight, Changed(s1, t, h, GivenUp(v), true, Hold(q)));
    }
  }

  lemma OwnersQueue(s: State, t: Tid, h: Handle)
    requires Inv(s) && t in s.threads && s.threads[t] == After(h)
    ensures h in s.services && s.services[h].queue.inGlobal
  {
    Knows(s, t, Holder(h));
    Knows(s, t, Owner(h));
    hide Inv;
    assert Local(s.services[h], ViewOf(s, h));
  }

  lemma NextQueue(s: State, t: Tid, weight: int, h: Handle, v: Service, q: Handle)
    requires v.queue.inGlobal
    ensures Leads(Changed(s, t, h, v, false, Publish(h, Release(h, Hold(q)))), t, weight,
                  Changed(s, t, h, GivenUp(v), true, Hold(q)))
  {
    var s1 := ToGlobal(s, h, true);
    var next := Release(h, Hold(q));
    assert Changed(s, t, h, v, true, next) == Changed(s1, t, h, v, false, next);
    assert Changed(s, t, h, GivenUp(v), true, Hold(q)) == Changed(s1, t, h, GivenUp(v), false, Hold(q));
    hide Do, Alone, Changed, Leads;
    ReleaseLeads(s1, t, weight, h, v, Hold(q));
    At(s, t, h, v, false, Publish(h, next));
    GoPublish(Changed(s, t, h, v, false, Publish(h, next)), t, weight, h, next);
    Then(s, t, weight, h, v, v, false, true, Publish(h, next), next, Changed(s, t, h, GivenUp(v), true, Hold(q)));
  }

  // ----- only a launch that succeeds launches a service -----

  /** The thread is going to set `init` of `h`. */
  predicate WillLaunch(pc: Pc, h: Handle) {
    match pc
    case Launched(g, next) => g == h || WillLaunch(next, h)
    case Release(_, next) => WillLaunch(next, h)
    case Mark(_, next) => WillLaunch(next, h)
    case Publish(_, next) => WillLaunch(next, h)
    case Retire(_, next) => WillLaunch(next, h)
    case MqRelease(_, next) => WillLaunch(next, h)
    case Drop(_, next) => WillLaunch(next, h)
    case _ => false
  }

  ghost predicate MayBeInit(s: State, h: Handle) {
    (h in s.services && s.services[h].init) || exists t :: t in s.threads && WillLaunch(s.threads[t], h)
  }

  /** The creator of `h` finds that its init function has succeeded. */
  predicate Succeeds(s: State, e: Event, h: Handle) {
    e.t in s.threads && s.threads[e.t] == Init(h) && e.a == Succeed
  }

  lemma StepLaunches(s: State, t: Tid, a: Act, h: Handle)
    requires MayBeInit(Do(s, t, a), h) && t in s.threads
    ensures MayBeInit(s, h) || Succeeds(s, Event(t, a), h)
  {
    var s', pc := Do(s, t, a), s.threads[t];
    OthersStay(s, t, a);
    if h in s'.services && s'.services[h].init {
      InitSet(s, t, a, h);
    } else {
      var u :| u in s'.threads && WillLaunch(s'.threads[u], h);
      hide Do;
      if u == t { PcLaunches(s, t, a, h); } else { assert s.threads[u] == s'.threads[u]; }
    }
  }

  lemma OthersStay(s: State, t: Tid, a: Act)
    requires t in s.threads
    ensures var s' := Do(s, t, a);
            t in s'.threads && s'.threads == s.threads[t := s'.threads[t]]
  {
    assert s.threads == s.threads[t := s.threads[t]];
    if a.Go? {
      GoesAlone(s, t, s.threads[t], a.weight);
    } else {
      hide Continue;
    }
  }

  lemma GoesAlone(s: State, t: Tid, pc: Pc, weight: int)
    requires t in s.threads && s.threads[t] == pc
    ensures var s' := Continue(s, t, pc, weight);
            t in s'.threads && s'.threads == s.threads[t := s'.threads[t]]
  {
    assert s.threads == s.threads[t := s.threads[t]];
    if !pc.Idle? && !pc.Fetch? && pc.h in s.services { WorksAlone(s, t, pc, s.services[pc.h], weight); }
    hide OnService;
  }

  lemma WorksAlone(s: State, t: Tid, pc: Pc, v: Service, weight: int)
    requires t in s.threads && s.threads[t] == pc
    ensures var s' := OnService(s, t, pc, v, weight);
            t in s'.threads && s'.threads == s.threads[t := s'.threads[t]]
  {
    assert s.threads == s.threads[t := s.threads[t]];
  }

  lemma InitSet(s: State, t: Tid, a: Act, h: Handle)
    requires t in s.threads && h in Do(s, t, a).services && Do(s, t, a).services[h].init
    ensures (h in s.services && s.services[h].init) || WillLaunch(s.threads[t], h)
  {
    if a.Go? {
      InitSetOn(s, t, s.threads[t], a.weight, h);
    } else {
      hide Continue;
    }
  }

  lemma InitSetOn(s: State, t: Tid, pc: Pc, weight: int, h: Handle)
    requires var s' := Continue(s, t, pc, weight);
             h in s'.services && s'.services[h].init
    ensures (h in s.services && s.services[h].init) || WillLaunch(pc, h)
  {
    if !pc.Idle? && !pc.Fetch? && pc.h in s.services &&
        OnService(s, t, pc, s.services[pc.h], weight) == Continue(s, t, pc, weight) {
      InitWorked(s, t, pc, s.services[pc.h], weight, h);
    }
    hide OnService;
  }

  lemma InitWorked(s: State, t: Tid, pc: Pc, v: Service, weight: int, h: Handle)
    requires !pc.Idle? && !pc.Fetch? && pc.h in s.services && v == s.services[pc.h]
    requires var s' := OnService(s, t, pc, v, weight);
             h in s'.services && s'.services[h].init
    ensures (h in s.services && s.services[h].init) || WillLaunch(pc, h)
  {
  }

  lemma PcLaunches(s: State, t: Tid, a: Act, h: Handle)
    requires t in s.threads && t in Do(s, t, a).threads && WillLaunch(Do(s, t, a).threads[t], h)
    ensures WillLaunch(s.threads[t], h) || Succeeds(s, Event(t, a), h)
  {
    var pc := s.threads[t];
    match a
    case Go(weight) =>
      if !pc.Idle? && !pc.Fetch? && pc.h in s.services { PcWorks(s, t, pc, s.services[pc.h], weight, h); }
      hide OnService;
      if pc.After? && s.global != [] { NoLaunch(pc.h, s.global[0], h); }
    case Succeed =>
      if pc.Init? { LaunchOf(pc.h, h); }
    case Fail =>
      if pc.Init? { NoLaunch(pc.h, pc.h, h); }
    case _ =>
      assert !WillLaunch(Idle, h);
  }

  lemma LaunchOf(g: Handle, h: Handle)
    ensures WillLaunch(Release(g, Launched(g, Publish(g, Announce(g)))), h) ==> g == h
  {
    var after := Publish(g, Announce(g));
    assert !WillLaunch(after, h);
    assert WillLaunch(Launched(g, after), h) <==> g == h;
  }

  lemma NoLaunch(g: Handle, q: Handle, h: Handle)
    ensures !WillLaunch(Release(g, Retire(g, MqRelease(g, Idle))), h)
    ensures !WillLaunch(Publish(g, Release(g, Hold(q))), h) && !WillLaunch(Release(g, Hold(g)), h)
    ensures !WillLaunch(MqRelease(g, Fetch), h)
  {
    assert !WillLaunch(MqRelease(g, Idle), h) && !WillLaunch(Release(g, Hold(q)), h);
  }

  lemma PcWorks(s: State, t: Tid, pc: Pc, v: Service, weight: int, h: Handle)
    requires t in s.threads && s.threads[t] == pc && !pc.Idle? && !pc.Fetch? && pc.h in s.services
    ensures var s' := OnService(s, t, pc, v, weight);
            t in s'.threads && WillLaunch(s'.threads[t], h) ==> WillLaunch(pc, h)
  {
    match pc
    case Release(_, next) =>
      if next.Launched? { assert !WillLaunch(Idle, h) && !WillLaunch(IfGone(next), h); }
    case Sending(g, _) => assert !WillLaunch(Idle, h) && !WillLaunch(Release(g, Idle), h);
    case Run(g, _, _) => assert !WillLaunch(Fetch, h) && !WillLaunch(Release(g, Fetch), h);
    case _ =>
  }

  /** In every run: a service is launched only if its creator has found that its init function succeeded. */
  lemma {:induction false} LaunchedOnlyBySuccess(s0: State, run: seq<Event>, h: Handle) returns (i: nat)
    requires MayBeInit(RunAll(s0, run), h) && !MayBeInit(s0, h)
    ensures i < |run| && Succeeds(RunAll(s0, run[..i]), run[i], h)
    decreases |run|
  {
    assert run != [];
    var e := run[0];
    var s1 := Do(s0, e.t, e.a);
    hide Do, MayBeInit, Succeeds;
    if MayBeInit(s1, h) {
      NoThread(s0, e);
      StepLaunches(s0, e.t, e.a, h);
      i := 0;
      assert RunAll(s0, run[..0]) == s0;
    } else {
      i := LaunchedOnlyBySuccess(s1, run[1..], h);
      assert run[1..][..i] == run[..i + 1][1..];
      i := i + 1;
    }
  }

  lemma NoThread(s: State, e: Event)
    ensures e.t !in s.threads ==> Do(s, e.t, e.a) == s
  {
  }

  /** From the start: with the creator's success, and never without it. */
  lemma InitMeansSuccess(s0: State, run: seq<Event>, h: Handle) returns (i: nat)
    requires Initial(s0) && h in RunAll(s0, run).services && RunAll(s0, run).services[h].init
    ensures i < |run| && Succeeds(RunAll(s0, run[..i]), run[i], h)
  {
    assert !MayBeInit(s0, h);
    hide Succeeds, RunAll;
    i := LaunchedOnlyBySuccess(s0, run, h);
  }
}
