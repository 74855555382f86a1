/** The life of a service context: who may still touch it, and that messages are only dispatched to a context
    that has been launched (`skynet_server.c`). */
module Contexts {
  import opened Wrappers
  import opened MessageQueue
  import opened Dispatch

  // ----- touching a context -----

  /** `delete_context` frees the context in the step in which it marks the queue. */
  predicate Deleted(v: Service) {
    v.queue.release
  }

  /** The thread is about to read or write the context of `h`. */
  predicate TouchesContext(pc: Pc, h: Handle) {
    (pc.Init? || pc.Sending? || pc.Release? || pc.Mark? || pc.Run? || pc.Deliver? || pc.After? || Late(pc)) && pc.h == h
  }

  /** The end of `skynet_context_new`, which goes on with the context after giving up its reference. */
  predicate Late(pc: Pc) {
    pc.Launched? || pc.Announce?
  }

  /** Everywhere else the context that a thread touches is there. */
  lemma ContextSafe(s: State, t: Tid, h: Handle)
    requires Inv(s) && t in s.threads && TouchesContext(s.threads[t], h) && !Late(s.threads[t])
    ensures h in s.services && !Deleted(s.services[h])
  {
    if s.threads[t].Mark? { Knows(s, t, Marker(h)); } else { Knows(s, t, Holder(h)); }
  }

  /** A context is there as long as it is registered, some thread holds it, or one is about to delete it. */
  lemma ContextThereIff(s: State, h: Handle)
    requires Inv(s) && h in s.services
    ensures ThereWhileUsed(s, h)
  {
    InOrder(s, h);
  }

  /** Retiring the handle, and giving up the reference of the handle table. */
  function Killing(u: Tid, h: Handle): seq<Event> {
    [Event(u, Kill(h))] + ([Event(u, Go(-1))] + ([Event(u, Go(-1))] + [Event(u, Go(-1))]))
  }

  lemma RunFirst(s: State, e: Event, rest: seq<Event>)
    ensures RunAll(s, [e] + rest) == RunAll(Do(s, e.t, e.a), rest)
  {
    assert ([e] + rest)[1..] == rest;
  }

  lemma RunLast(s: State, e: Event)
    ensures RunAll(s, [e]) == Do(s, e.t, e.a)
  {
    RunFirst(s, e, []);
    assert [e] + [] == [e];
  }

  /** A thread that is launching a service comes too late if another one kills the service meanwhile, and no
      other reference to it is left. */
  lemma LaunchCanBeLate(s: State, t: Tid, u: Tid, h: Handle)
    requires t in s.threads && Late(s.threads[t]) && TouchesContext(s.threads[t], h)
    requires u in s.threads && u != t && s.threads[u] == Idle
    requires h in s.services && s.services[h].registered && s.services[h].ref == 1
    ensures var s' := RunAll(s, Killing(u, h));
            t in s'.threads && s'.threads[t] == s.threads[t] && h in s'.services && Deleted(s'.services[h])
  {
    var s1 := Do(s, u, Kill(h));
    var s2 := Do(s1, u, Go(-1));
    var s3 := Do(s2, u, Go(-1));
    KilledBy(s, t, u, h);
    hide Do, RunAll, Late, TouchesContext, Deleted;
    RunLast(s3, Event(u, Go(-1)));
    RunFirst(s2, Event(u, Go(-1)), [Event(u, Go(-1))]);
    RunFirst(s1, Event(u, Go(-1)), [Event(u, Go(-1))] + [Event(u, Go(-1))]);
    RunFirst(s, Event(u, Kill(h)), [Event(u, Go(-1))] + ([Event(u, Go(-1))] + [Event(u, Go(-1))]));
  }

  lemma KilledBy(s: State, t: Tid, u: Tid, h: Handle)
    requires t in s.threads && u in s.threads && u != t && s.threads[u] == Idle
    requires h in s.services && s.services[h].registered && s.services[h].ref == 1
    ensures var s' := Do(Do(Do(Do(s, u, Kill(h)), u, Go(-1)), u, Go(-1)), u, Go(-1));
            t in s'.threads && s'.threads[t] == s.threads[t] && h in s'.services && Deleted(s'.services[h])
  {
    var v := s.services[h];
    assert Do(s, u, Kill(h)) == To(s, u, Retire(h, Idle));
    var s2 := To(Set(s, h, v.(registered := false)), u, Release(h, Idle));
    assert Do(To(s, u, Retire(h, Idle)), u, Go(-1)) == s2;
    assert Do(s2, u, Go(-1)) == To(Set(s, h, v.(registered := false, ref := 0)), u, Mark(h, Idle));
  }

  /** Such a state is reached. */
  lemma LaunchCanBeLateFrom(h: Handle)
    ensures var s := RunAll(State(map[], [], map[1 := Idle, 2 := Idle]),
                            [Event(1, New(h))] + ([Event(1, Succeed)] + ([Event(1, Go(-1))] + Killing(2, h))));
            1 in s.threads && Late(s.threads[1]) && TouchesContext(s.threads[1], h) && h in s.services &&
                Deleted(s.services[h])
  {
    var v, after := NewService(), Publish(h, Announce(h));
    var s := State(map[], [], map[1 := Idle, 2 := Idle]);
    var s1 := State(map[h := v], [], map[1 := Init(h), 2 := Idle]);
    var s2 := State(map[h := v], [], map[1 := Release(h, Launched(h, after)), 2 := Idle]);
    var s3 := State(map[h := v.(ref := 1)], [], map[1 := Launched(h, after), 2 := Idle]);
    assert Do(s, 1, New(h)) == s1 && Do(s1, 1, Succeed) == s2 && Do(s2, 1, Go(-1)) == s3;
    LaunchCanBeLate(s3, 1, 2, h);
    RunFirst(s2, Event(1, Go(-1)), Killing(2, h));
    RunFirst(s1, Event(1, Succeed), [Event(1, Go(-1))] + Killing(2, h));
    RunFirst(s, Event(1, New(h)), [Event(1, Succeed)] + ([Event(1, Go(-1))] + Killing(2, h)));
  }

  // ----- the assertion of `dispatch_message` -----

  predicate Ready(v: Service) {
    v.init || !v.registered
  }

  /** The thread has the queue of `h`, and `skynet_context_new` is through with it or the service is gone. */
  predicate Published(pc: Pc, h: Handle) {
    match pc
    case Publish(g, next) => g == h || Published(next, h)
    case Release(_, next) => Published(next, h)
    case Mark(_, next) => Published(next, h)
    case Retire(g, next) => g != h && Published(next, h)
    case MqRelease(g, next) => g == h || Published(next, h)
    case Drop(g, next) => g == h || Published(next, h)
    case Hold(g) => g == h
    case Run(g, _, _) => g == h
    case Deliver(g, _, _, _) => g == h
    case After(g) => g == h
    case _ => false
  }

  predicate Dispatches(pc: Pc) {
    pc.Run? || pc.Deliver? || pc.After?
  }

  /** What holds of a service that is not being created any more. */
  ghost predicate InitInv(s: State) {
    && (forall h :: h in s.services && (h in s.global || !s.services[h].queue.inGlobal) ==> Ready(s.services[h]))
    && (forall t, h :: t in s.threads && h in s.services && Published(s.threads[t], h) ==> Ready(s.services[h]))
    && (forall t :: t in s.threads && Dispatches(s.threads[t]) ==>
          s.threads[t].h in s.services && s.services[s.threads[t].h].init)
  }

  /** A launched service stays so, and a retired one. */
  predicate Keeps(v: Service, v': Service) {
    (Ready(v) ==> Ready(v')) && (v.init ==> v'.init)
  }

  /** What a step of thread `t` has to do with it. */
  ghost predicate InitStep(s: State, s': State, t: Tid) {
    && Moved(s, s', t)
    && (forall h :: h in s'.services <==> h in s.services)
    && (forall h :: h in s.services ==> Keeps(s.services[h], s'.services[h]))
    && (forall h :: h in s.services && (h in s'.global || !s'.services[h].queue.inGlobal) ==>
          h in s.global || !s.services[h].queue.inGlobal || Published(s.threads[t], h) || Ready(s'.services[h]))
    && (forall h :: h in s.services && Published(s'.threads[t], h) ==>
          h in s.global || Published(s.threads[t], h) || Ready(s'.services[h]))
    && (Dispatches(s'.threads[t]) ==> s'.threads[t].h in s.services && s'.services[s'.threads[t].h].init)
  }

  lemma InitKept(s: State, s': State, t: Tid)
    requires InitInv(s) && InitStep(s, s', t)
    ensures InitInv(s')
  {
    hide Published, Ready;
    forall u | u in s'.threads && Dispatches(s'.threads[u])
      ensures s'.threads[u].h in s'.services && s'.services[s'.threads[u].h].init
    {
      if u != t { assert s'.threads[u] == s.threads[u]; }
    }
    forall u, h | u in s'.threads && h in s'.services && Published(s'.threads[u], h) ensures Ready(s'.services[h]) {
      if u != t { assert s'.threads[u] == s.threads[u]; }
    }
  }

  /** A thread that deletes a context, or is about to, comes after the handle has been retired. */
  lemma LastIsRetired(s: State, t: Tid)
    requires Inv(s) && t in s.threads
    ensures var pc := s.threads[t];
            && (pc.Release? ==> pc.h in s.services && (s.services[pc.h].ref == 1 ==> !s.services[pc.h].registered))
            && (pc.Mark? ==> pc.h in s.services && !s.services[pc.h].registered)
            && (pc.Launched? ==> Launching(pc.h, pc))
  {
    if s.threads[t].Release? { Knows(s, t, Holder(s.threads[t].h)); }
    if s.threads[t].Mark? { Knows(s, t, Marker(s.threads[t].h)); }
    assert ThreadOk(s, s.threads[t]);
  }

  /** A step that changes one service. */
  lemma InitOne(s: State, s': State, t: Tid, g: Handle)
    requires Moved(s, s', t) && g in s.services && g in s'.services && s'.services == s.services[g := s'.services[g]]
    requires Keeps(s.services[g], s'.services[g])
    requires forall k :: k in s'.global ==> k in s.global || k == g
    requires g in s'.global || !s'.services[g].queue.inGlobal ==>
               g in s.global || !s.services[g].queue.inGlobal || Published(s.threads[t], g) || Ready(s'.services[g])
    requires forall k :: Published(s'.threads[t], k) ==> Published(s.threads[t], k) || (k == g && Ready(s'.services[g]))
    requires Dispatches(s'.threads[t]) ==> s'.threads[t].h == g && s'.services[g].init
    ensures InitStep(s, s', t)
  {
    hide Published, Ready;
  }

  /** A step that changes one service, and lists it or not. */
  lemma InitSet(s: State, t: Tid, g: Handle, v': Service, push: bool, pc': Pc)
    requires t in s.threads && g in s.services && Keeps(s.services[g], v')
    requires (push && g !in s.global) || (!v'.queue.inGlobal && s.services[g].queue.inGlobal) ==>
               Published(s.threads[t], g) || Ready(v')
    requires forall k :: Published(pc', k) ==> Published(s.threads[t], k) || (k == g && Ready(v'))
    requires Dispatches(pc') ==> pc'.h == g && v'.init
    ensures InitStep(s, To(ToGlobal(Set(s, g, v'), g, push), t, pc'), t)
  {
    hide Published, Ready, Dispatches, Keeps, InitStep;
    InGlobal(Set(s, g, v'), g, push);
    InitOne(s, To(ToGlobal(Set(s, g, v'), g, push), t, pc'), t, g);
  }

  /** A step that changes at most the list. */
  lemma InitList(s: State, t: Tid, g: Handle, push: bool, pc': Pc)
    requires t in s.threads && g in s.services && (push ==> Published(s.threads[t], g) || Ready(s.services[g]))
    requires forall k :: Published(pc', k) ==> Published(s.threads[t], k) || (k == g && Ready(s.services[g]))
    requires Dispatches(pc') ==> pc'.h == g && s.services[g].init
    ensures InitStep(s, To(ToGlobal(s, g, push), t, pc'), t)
  {
    hide Published, Ready, Dispatches, InitStep;
    InitSet(s, t, g, s.services[g], push, pc');
    assert Set(s, g, s.services[g]) == s;
  }

  /** A step that changes no service. */
  lemma InitNone(s: State, s': State, t: Tid)
    requires InitInv(s) && Moved(s, s', t) && s'.services == s.services
    requires forall k :: k in s'.global ==> k in s.global || Published(s.threads[t], k)
    requires forall k :: Published(s'.threads[t], k) ==> Published(s.threads[t], k) || k in s.global
    requires Dispatches(s'.threads[t]) ==> Dispatches(s.threads[t]) && s'.threads[t].h == s.threads[t].h
    ensures InitStep(s, s', t)
  {
    hide Published, Ready;
  }

  lemma InGlobal(s: State, h: Handle, push: bool)
    ensures forall k :: k in ToGlobal(s, h, push).global <==> k in s.global || (push && k == h)
  {
  }

  lemma ReleaseInit(s: State, t: Tid, h: Handle, next: Pc)
    requires Inv(s) && t in s.threads && s.threads[t] == Release(h, next)
    ensures h in s.services
    ensures var v := s.services[h];
            InitStep(s, To(Set(s, h, v.(ref := v.ref - 1)), t, if v.ref == 1 then Mark(h, IfGone(next)) else next), t)
  {
    hide Tidy, Local;
    LastIsRetired(s, t);
    ThreadFine(s, t);
    var v := s.services[h];
    var v', pc' := v.(ref := v.ref - 1), if v.ref == 1 then Mark(h, IfGone(next)) else next;
    ReleasePublishes(h, next, pc');
    assert Keeps(v, v') && (pc'.Mark? && !next.Mark? ==> Ready(v'));
    hide Inv, InitStep, Published, ThreadOk, IfGone, Ready, Keeps;
    InitSet(s, t, h, v', false, pc');
  }

  lemma ReleasePublishes(h: Handle, next: Pc, pc: Pc)
    requires Tidy(Release(h, next)) && (pc == next || pc == Mark(h, IfGone(next)))
    ensures !Dispatches(pc) && !next.Mark?
    ensures forall k :: Published(pc, k) ==> Published(Release(h, next), k) || (k == h && pc.Mark?)
  {
    if !Plain(next) {
      assert IfGone(next) == Publish(h, Idle);
      assert forall k :: Published(Publish(h, Idle), k) ==> k == h;
    }
  }

  lemma PlainIsQuiet(pc: Pc)
    requires Plain(pc)
    ensures !Dispatches(pc)
  {
  }

  lemma MarkInit(s: State, t: Tid, h: Handle, next: Pc)
    requires Inv(s) && t in s.threads && s.threads[t] == Mark(h, next)
    ensures h in s.services
    ensures var v := s.services[h];
            var (q, push) := v.queue.MarkRelease();
            InitStep(s, To(ToGlobal(Set(s, h, v.(queue := q)), h, push), t, next), t)
  {
    LastIsRetired(s, t);
    ThreadFine(s, t);
    hide Inv, InitStep;
    PlainIsQuiet(next);
    var v := s.services[h];
    var (q, push) := v.queue.MarkRelease();
    InitSet(s, t, h, v.(queue := q), push, next);
  }

  lemma LaunchedInit(s: State, t: Tid, h: Handle, next: Pc)
    requires Inv(s) && t in s.threads && s.threads[t] == Launched(h, next)
    ensures h in s.services && InitStep(s, To(Set(s, h, s.services[h].(init := true)), t, next), t)
  {
    hide Tidy, Local;
    LastIsRetired(s, t);
    LaunchedOwns(s, t, h);
    Knows(s, t, Owner(h));
    assert forall k :: !Published(Announce(h), k);
    hide Inv, InitStep;
    InitSet(s, t, h, s.services[h].(init := true), false, next);
  }

  lemma SendingInit(s: State, t: Tid, h: Handle, m: Msg)
    requires Inv(s) && InitInv(s) && t in s.threads && s.threads[t] == Sending(h, m)
    ensures h in s.services
    ensures var v := s.services[h];
            var (q, push) := v.queue.Push(m);
            InitStep(s, To(ToGlobal(Set(s, h, v.(queue := q, pushed := v.pushed + [m])), h, push), t, Release(h, Idle)),
                     t)
  {
    hide Tidy, Local, Published;
    Knows(s, t, Holder(h));
    IdlePublishes(h);
    var v := s.services[h];
    var (q, push) := v.queue.Push(m);
    hide Inv, InitStep;
    InitSet(s, t, h, v.(queue := q, pushed := v.pushed + [m]), push, Release(h, Idle));
  }

  lemma IdlePublishes(h: Handle)
    ensures forall k :: !Published(Idle, k) && !Published(Release(h, Idle), k)
    ensures forall k :: !Published(Fetch, k) && !Published(Release(h, Fetch), k)
  {
    assert forall k :: !Published(Idle, k) && !Published(Fetch, k);
  }

  lemma RetireInit(s: State, t: Tid, h: Handle, next: Pc)
    requires Inv(s) && t in s.threads && s.threads[t] == Retire(h, next) && h in s.services && s.services[h].registered
    ensures InitStep(s, To(Set(s, h, s.services[h].(registered := false)), t, Release(h, next)), t)
  {
    hide Tidy, Local;
    ThreadFine(s, t);
    assert forall k :: Published(Release(h, next), k) == Published(next, k);
    hide Inv, InitStep;
    InitSet(s, t, h, s.services[h].(registered := false), false, Release(h, next));
  }

  /** The handle has been retired before. */
  lemma RetiredInit(s: State, t: Tid, h: Handle, next: Pc)
    requires Inv(s) && InitInv(s) && t in s.threads && s.threads[t] == Retire(h, next) &&
             (h in s.services ==> !s.services[h].registered)
    ensures InitStep(s, To(s, t, next), t)
  {
    ThreadIsPlain(s, t);
    PlainIsQuiet(next);
    hide Inv, Tidy, InitStep;
    if h in s.services {
      assert forall k :: Published(next, k) ==> Published(Retire(h, next), k) || k == h;
      InitList(s, t, h, false, next);
    } else {
      UnknownInit(s, t, h, next);
    }
  }

  lemma UnknownInit(s: State, t: Tid, h: Handle, next: Pc)
    requires Inv(s) && t in s.threads && s.threads[t] == Retire(h, next) && Plain(next) && h !in s.services
    ensures InitStep(s, To(s, t, next), t)
  {
    PlainIsQuiet(next);
    hide Inv, Tidy;
  }

  lemma ThreadIsPlain(s: State, t: Tid)
    requires Inv(s) && t in s.threads
    ensures var pc := s.threads[t];
            (pc.Retire? || pc.MqRelease? || pc.Drop? || pc.Mark?) ==> Plain(pc.next)
    ensures s.threads[t].Publish? ==> !Dispatches(s.threads[t].next)
  {
    assert ThreadOk(s, s.threads[t]);
  }

  lemma PublishInit(s: State, t: Tid, h: Handle, next: Pc)
    requires Inv(s) && t in s.threads && s.threads[t] == Publish(h, next)
    ensures h in s.services && InitStep(s, To(ToGlobal(s, h, true), t, next), t)
  {
    hide Tidy, Local;
    ThreadIsPlain(s, t);
    Knows(s, t, Owner(h));
    hide Inv, InitStep;
    InitList(s, t, h, true, next);
  }

  lemma MqReleaseInit(s: State, t: Tid, h: Handle, next: Pc)
    requires Inv(s) && t in s.threads && s.threads[t] == MqRelease(h, next)
    ensures h in s.services
    ensures InitStep(s, if s.services[h].queue.release then To(s, t, Drop(h, next))
                     else To(ToGlobal(s, h, true), t, next), t)
  {
    hide Tidy, Local;
    ThreadIsPlain(s, t);
    Knows(s, t, Owner(h));
    PlainIsQuiet(next);
    hide Inv, InitStep;
    assert forall k :: Published(Drop(h, next), k) == Published(MqRelease(h, next), k);
    if s.services[h].queue.release { InitList(s, t, h, false, Drop(h, next)); } else { InitList(s, t, h, true, next); }
  }

  lemma DropInit(s: State, t: Tid, h: Handle, next: Pc)
    requires Inv(s) && t in s.threads && s.threads[t] == Drop(h, next)
    ensures h in s.services
    ensures var v := s.services[h];
            var (q, m) := v.queue.Pop();
            InitStep(s, if m.Some? then Set(s, h, v.(queue := q, fates := v.fates + [Dropped(m.value)]))
                        else To(Set(s, h, v.(queue := q, freed := true)), t, next), t)
  {
    ThreadIsPlain(s, t);
    Knows(s, t, Owner(h));
    PlainIsQuiet(next);
    DropPublishes(h, next);
    hide Inv, InitStep, Published, Local, Tidy;
    var v := s.services[h];
    var (q, m) := v.queue.Pop();
    if m.Some? {
      InitSet(s, t, h, v.(queue := q, fates := v.fates + [Dropped(m.value)]), false, Drop(h, next));
      ToSame(Set(s, h, v.(queue := q, fates := v.fates + [Dropped(m.value)])), t);
    } else {
      InitSet(s, t, h, v.(queue := q, freed := true), false, next);
    }
  }

  lemma DropPublishes(h: Handle, next: Pc)
    ensures forall k :: Published(Drop(h, next), k) <==> k == h || Published(next, k)
  {
  }

  lemma WorkPublishes(h: Handle)
    ensures forall k, i: nat, n: nat :: Published(Run(h, i, n), k) <==> k == h
    ensures forall k, m, i: nat, n: nat :: Published(Deliver(h, m, i, n), k) <==> k == h
    ensures forall k :: Published(Hold(h), k) || Published(MqRelease(h, Fetch), k) ==> k == h
  {
    IdlePublishes(h);
  }

  lemma WorksOnReady(s: State, t: Tid, h: Handle)
    requires Inv(s) && InitInv(s) && t in s.threads
    ensures Dispatches(s.threads[t]) && s.threads[t].h == h ==> h in s.services && s.services[h].init
    ensures s.threads[t] == Hold(h) ==> h in s.services && Ready(s.services[h])
  {
    if s.threads[t] == Hold(h) {
      Knows(s, t, Owner(h));
      assert Published(s.threads[t], h);
    }
  }

  lemma PopInit(s: State, t: Tid, h: Handle, i: nat, n: nat)
    requires Inv(s) && InitInv(s) && t in s.threads && s.threads[t] == Run(h, i, n)
    ensures h in s.services
    ensures var v := s.services[h];
            var (q, m) := v.queue.Pop();
            InitStep(s, if m.Some? then To(Set(s, h, v.(queue := q, taken := [m.value])), t, Deliver(h, m.value, i, n))
                        else To(Set(s, h, v.(queue := q)), t, Release(h, Fetch)), t)
  {
    hide Inv, InitInv, InitStep, Published;
    IdlePublishes(h);
    WorkPublishes(h);
    WorksOnReady(s, t, h);
    var v := s.services[h];
    var (q, m) := v.queue.Pop();
    if m.Some? {
      InitSet(s, t, h, v.(queue := q, taken := [m.value]), false, Deliver(h, m.value, i, n));
    } else {
      InitSet(s, t, h, v.(queue := q), false, Release(h, Fetch));
    }
  }

  lemma DeliverInit(s: State, t: Tid, h: Handle, m: Msg, i: nat, n: nat, n': nat)
    requires Inv(s) && InitInv(s) && t in s.threads && s.threads[t] == Deliver(h, m, i, n)
    ensures h in s.services
    ensures var v := s.services[h];
            InitStep(s, To(Set(s, h, v.(fates := v.fates + [Delivered(m)], taken := [])), t, Run(h, i + 1, n')), t)
  {
    hide Inv, InitInv, InitStep, Published;
    WorkPublishes(h);
    WorksOnReady(s, t, h);
    InitSet(s, t, h, s.services[h].(fates := s.services[h].fates + [Delivered(m)], taken := []), false,
            Run(h, i + 1, n'));
  }

  /** A context is only grabbed for dispatching once it has been launched. */
  lemma GrabInit(s: State, t: Tid, h: Handle)
    requires Inv(s) && InitInv(s) && t in s.threads && s.threads[t] == Hold(h)
    ensures InitStep(s, Grab(s, t, h, Run(h, 0, 1), MqRelease(h, Fetch)), t)
  {
    hide Inv, InitInv, InitStep, Published;
    WorkPublishes(h);
    WorksOnReady(s, t, h);
    HoldPublishes(h);
    var v := s.services[h];
    if v.registered {
      InitSet(s, t, h, v.(ref := v.ref + 1), false, Run(h, 0, 1));
    } else {
      InitList(s, t, h, false, MqRelease(h, Fetch));
    }
  }

  lemma HoldPublishes(h: Handle)
    ensures Published(Hold(h), h)
  {
  }

  lemma SendInit(s: State, t: Tid, h: Handle, m: Msg)
    requires InitInv(s) && t in s.threads && s.threads[t] == Idle
    ensures InitStep(s, Grab(s, t, h, Sending(h, m), Idle), t)
  {
    if h in s.services && s.services[h].registered {
      hide InitStep;
      InitSet(s, t, h, s.services[h].(ref := s.services[h].ref + 1), false, Sending(h, m));
    } else {
      hide InitStep;
      InitNone(s, To(s, t, Idle), t);
    }
  }

  /** A worker takes the head of the list, with a queue of its own to put back or without. */
  lemma FetchInit(s: State, t: Tid)
    requires Inv(s) && InitInv(s) && t in s.threads && s.global != [] && (s.threads[t].Fetch? || s.threads[t].After?)
    ensures var q := s.global[0];
            var found := if s.threads[t].Fetch? then Hold(q)
                else Publish(s.threads[t].h, Release(s.threads[t].h, Hold(q)));
            InitStep(s, To(s.(global := s.global[1..]), t, found), t)
  {
    hide Inv, InitInv, InitStep, Published;
    var q := s.global[0];
    PutAside(q);
    if s.threads[t].Fetch? {
      InitNone(s, To(s.(global := s.global[1..]), t, Hold(q)), t);
    } else {
      var h := s.threads[t].h;
      BothPublished(h, q);
      InitNone(s, To(s.(global := s.global[1..]), t, Publish(h, Release(h, Hold(q)))), t);
    }
  }

  lemma BothPublished(h: Handle, q: Handle)
    ensures forall k :: Published(Publish(h, Release(h, Hold(q))), k) ==> k == q || Published(After(h), k)
  {
    assert forall k :: Published(Hold(q), k) <==> k == q;
    assert forall k :: Published(Release(h, Hold(q)), k) <==> k == q;
  }

  /** A thread that goes on without a service changing. */
  lemma SameInit(s: State, t: Tid, pc: Pc)
    requires InitInv(s) && t in s.threads && forall k :: Published(pc, k) ==> Published(s.threads[t], k)
    requires Dispatches(pc) ==> Dispatches(s.threads[t]) && pc.h == s.threads[t].h
    ensures InitStep(s, To(s, t, pc), t)
  {
    hide Published, InitStep;
    InitNone(s, To(s, t, pc), t);
  }

  lemma ContinueInit(s: State, t: Tid, weight: int)
    requires Inv(s) && InitInv(s) && t in s.threads
    ensures InitStep(s, Do(s, t, Go(weight)), t)
  {
    hide Inv, InitInv, InitStep, Published;
    var pc := s.threads[t];
    match pc
    case Idle => SameInit(s, t, pc); ToSame(s, t);
    case Init(_) => SameInit(s, t, pc); ToSame(s, t);
    case Fetch => if s.global != [] { FetchInit(s, t); } else { SameInit(s, t, Fetch); }
    case After(h) =>
      if s.global != [] { FetchInit(s, t); } else { PutAside(h); SameInit(s, t, Release(h, Hold(h))); }
    case Hold(h) => GrabInit(s, t, h);
    case Sending(h, m) => SendingInit(s, t, h, m);
    case Release(h, next) => ReleaseInit(s, t, h, next);
    case Mark(h, next) => MarkInit(s, t, h, next);
    case Launched(h, next) => LaunchedInit(s, t, h, next);
    case Announce(h) => IdlePublishes(h); SameInit(s, t, if h in s.services then Idle else pc); ToSame(s, t);
    case Publish(h, next) => PublishInit(s, t, h, next);
    case Retire(h, next) =>
      if h in s.services && s.services[h].registered { RetireInit(s, t, h, next); } else { RetiredInit(s, t, h, next); }
    case MqRelease(h, next) => MqReleaseInit(s, t, h, next);
    case Drop(h, next) => DropInit(s, t, h, next);
    case Run(h, i, n) =>
      WorksOnReady(s, t, h);
      if i >= n { PutAside(h); WorkPublishes(h); SameInit(s, t, After(h)); } else { PopInit(s, t, h, i, n); }
    case Deliver(h, m, i, n) =>
      WorksOnReady(s, t, h);
      DeliverInit(s, t, h, m, i, n, if i == 0 && weight >= 0 then Shift(|s.services[h].queue.msgs|, weight) else n);
  }

  lemma ToSame(s: State, t: Tid)
    requires t in s.threads
    ensures To(s, t, s.threads[t]) == s
  {
  }

  lemma PutAside(h: Handle)
    ensures forall k :: Published(After(h), k) <==> k == h
    ensures forall k :: Published(Hold(h), k) <==> k == h
    ensures forall k :: Published(Release(h, Hold(h)), k) ==> Published(After(h), k)
  {
    assert forall k :: Published(Hold(h), k) <==> k == h;
  }

  /** A new service is in nobody's hands but its creator's. */
  lemma NewInit(s: State, t: Tid, h: Handle)
    requires Inv(s) && InitInv(s) && t in s.threads && s.threads[t].Idle? && h !in s.services
    ensures InitInv(To(Set(s, h, NewService()), t, Init(h)))
  {
    NobodyKnows(s, h);
    assert forall k :: !Published(Init(h), k);
    hide Inv, Published, Ready, InitInv;
    AddedInit(s, t, h, NewService(), Init(h));
  }

  lemma AddedInit(s: State, t: Tid, h: Handle, v: Service, pc: Pc)
    requires InitInv(s) && t in s.threads && h !in s.services && h !in s.global && v.queue.inGlobal
    requires forall u :: u in s.threads ==> !Published(s.threads[u], h)
    requires !Dispatches(pc) && forall k :: !Published(pc, k)
    ensures InitInv(To(Set(s, h, v), t, pc))
  {
    hide Published, Ready;
    var s' := To(Set(s, h, v), t, pc);
    forall u, k | u in s'.threads && k in s'.services && Published(s'.threads[u], k) ensures Ready(s'.services[k]) {
      assert u != t && k != h && Published(s.threads[u], k);
    }
  }

  lemma NobodyKnows(s: State, h: Handle)
    requires Inv(s) && h !in s.services
    ensures h !in s.global && forall u :: u in s.threads ==> !Published(s.threads[u], h)
  {
    if h in s.global { ListedKnown(s, h); }
    forall u | u in s.threads ensures !Published(s.threads[u], h) {
      if Published(s.threads[u], h) {
        PublishedOwns(s.threads[u], h);
        Knows(s, u, Owner(h));
      }
    }
  }

  lemma {:induction false} PublishedOwns(pc: Pc, h: Handle)
    requires Published(pc, h)
    ensures h in Owns(pc)
  {
    match pc
    case Publish(g, next) => if g != h { PublishedOwns(next, h); }
    case Release(_, next) => PublishedOwns(next, h);
    case Mark(_, next) => PublishedOwns(next, h);
    case Retire(_, next) => PublishedOwns(next, h);
    case MqRelease(g, next) => if g != h { PublishedOwns(next, h); }
    case Drop(g, next) => if g != h { PublishedOwns(next, h); }
    case _ =>
  }

  lemma CreationPublishes(h: Handle, k: Handle)
    ensures !Published(Init(h), k) && !Published(Retire(h, Idle), k)
    ensures !Published(Release(h, Launched(h, Publish(h, Announce(h)))), k)
    ensures !Published(Release(h, Retire(h, MqRelease(h, Idle))), k)
  {
    assert !Published(Idle, k);
    assert Published(MqRelease(h, Idle), k) ==> k == h;
    assert !Published(Retire(h, MqRelease(h, Idle)), k);
    assert !Published(Launched(h, Publish(h, Announce(h))), k);
  }

  lemma CreationQuiet(h: Handle)
    ensures forall k :: !Published(Retire(h, Idle), k)
    ensures forall k :: !Published(Release(h, Launched(h, Publish(h, Announce(h)))), k)
    ensures forall k :: !Published(Release(h, Retire(h, MqRelease(h, Idle))), k)
  {
    hide Published;
    forall k
      ensures !Published(Retire(h, Idle), k) && !Published(Release(h, Launched(h, Publish(h, Announce(h)))), k)
      ensures !Published(Release(h, Retire(h, MqRelease(h, Idle))), k)
    {
      CreationPublishes(h, k);
    }
  }

  lemma StepKeepsInit(s: State, t: Tid, a: Act)
    requires Inv(s) && InitInv(s)
    ensures InitInv(Do(s, t, a))
  {
    if t in s.threads {
      var pc := s.threads[t];
      hide Inv, InitInv, InitStep, Published, Continue;
      match a
      case New(h) => if pc.Idle? && h !in s.services { NewInit(s, t, h); }
      case Succeed =>
        if pc.Init? {
          CreationQuiet(pc.h);
          SameInit(s, t, Release(pc.h, Launched(pc.h, Publish(pc.h, Announce(pc.h)))));
          InitKept(s, Do(s, t, a), t);
        }
      case Fail =>
        if pc.Init? {
          CreationQuiet(pc.h);
          SameInit(s, t, Release(pc.h, Retire(pc.h, MqRelease(pc.h, Idle))));
          InitKept(s, Do(s, t, a), t);
        }
      case Kill(h) => if pc.Idle? { CreationQuiet(h); SameInit(s, t, Retire(h, Idle)); InitKept(s, Do(s, t, a), t); }
      case Send(h, m) => if pc.Idle? { SendInit(s, t, h, m); InitKept(s, Do(s, t, a), t); }
      case Go(weight) => ContinueInit(s, t, weight); InitKept(s, Do(s, t, a), t);
    }
  }

  lemma {:induction false} RunKeepsInit(s: State, run: seq<Event>)
    requires Inv(s) && InitInv(s)
    ensures Inv(RunAll(s, run)) && InitInv(RunAll(s, run))
    decreases |run|
  {
    hide Inv, InitInv, Do;
    if run != [] {
      StepKeepsInv(s, run[0].t, run[0].a);
      StepKeepsInit(s, run[0].t, run[0].a);
      RunKeepsInit(Do(s, run[0].t, run[0].a), run[1..]);
    }
  }

  // ----- for every run -----

  /** A context is there while it is registered, or a thread holds it or is about to delete it. */
  ghost predicate ThereWhileUsed(s: State, h: Handle)
    requires h in s.services
  {
    !Deleted(s.services[h]) <==>
    s.services[h].registered || Players(s, Holder(h)) != {} || Players(s, Marker(h)) != {}
  }

  predicate TouchIsSafe(s: State, t: Tid, h: Handle)
    requires t in s.threads
  {
    TouchesContext(s.threads[t], h) && !Late(s.threads[t]) ==> h in s.services && !Deleted(s.services[h])
  }

  predicate DispatchIsLaunched(s: State, t: Tid)
    requires t in s.threads
  {
    Dispatches(s.threads[t]) ==> s.threads[t].h in s.services && s.services[s.threads[t].h].init
  }

  /** Over every interleaving of every number of threads: a message is dispatched only to a context that has
      been launched, and a context is touched only while it is there, but for the end of a launch; that too
      comes in time while the handle is registered, or a thread holds the context or is about to delete it. */
  lemma ContextsSafe(s0: State, run: seq<Event>)
    requires Initial(s0)
    ensures var s := RunAll(s0, run);
            && (forall t :: t in s.threads ==> DispatchIsLaunched(s, t))
            && (forall t, h :: t in s.threads ==> TouchIsSafe(s, t, h))
            && (forall h :: h in s.services ==> ThereWhileUsed(s, h))
  {
    InitialInv(s0);
    InitialInit(s0);
    hide Inv, InitInv, RunAll, DispatchIsLaunched, TouchIsSafe, ThereWhileUsed;
    RunKeepsInit(s0, run);
    var s := RunAll(s0, run);
    forall t | t in s.threads ensures DispatchIsLaunched(s, t) { LaunchedFirst(s, t); }
    forall t, h | t in s.threads ensures TouchIsSafe(s, t, h) { SafeTouch(s, t, h); }
    forall h | h in s.services ensures ThereWhileUsed(s, h) { ContextThereIff(s, h); }
  }

  lemma InitialInit(s: State)
    requires Initial(s)
    ensures InitInv(s)
  {
  }

  lemma LaunchedFirst(s: State, t: Tid)
    requires InitInv(s) && t in s.threads
    ensures DispatchIsLaunched(s, t)
  {
  }

  lemma SafeTouch(s: State, t: Tid, h: Handle)
    requires Inv(s) && t in s.threads
    ensures TouchIsSafe(s, t, h)
  {
    hide Inv;
    if TouchesContext(s.threads[t], h) && !Late(s.threads[t]) { ContextSafe(s, t, h); }
  }
}
