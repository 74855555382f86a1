/** Scheduling of services (`skynet_server.c`, `skynet_mq.c`): any number of threads create,
    message, retire and run services.  Each lock section and each atomic operation is one step. */
module Dispatch {
  import opened Wrappers
  import opened MessageQueue

  type Tid = nat
  type Handle = nat
  type Msg = nat

  /** How a message left its queue. */
  datatype Fate = Delivered(m: Msg) | Dropped(m: Msg)

  /** A service context with its queue.  `init` says that the service has been launched; `pushed` and
      `fates` record what has happened, `taken` what a worker has popped and not yet delivered. */
  datatype Service = Service(registered: bool, ref: int, init: bool, queue: Queue<Msg>, freed: bool,
                             pushed: seq<Msg>, fates: seq<Fate>, taken: seq<Msg>)

  function NewService(): Service {
    Service(true, 2, false, Created(), false, [], [], [])
  }

  /** What a thread is about to do; `next` is what it does afterwards. */
  datatype Pc =
    | Idle
    | Init(h: Handle)                      // skynet_context_new, running the init function
    | Sending(h: Handle, m: Msg)           // skynet_context_push, context grabbed
    | Release(h: Handle, next: Pc)         // skynet_context_release
    | Mark(h: Handle, next: Pc)            // delete_context, count has reached zero
    | Launched(h: Handle, next: Pc)        // about to set init, after giving up the reference
    | Announce(h: Handle)                  // about to report the launch, likewise
    | Publish(h: Handle, next: Pc)         // skynet_globalmq_push
    | Retire(h: Handle, next: Pc)          // skynet_handle_retire
    | MqRelease(h: Handle, next: Pc)       // skynet_mq_release
    | Drop(h: Handle, next: Pc)            // _drop_queue
    | Fetch                                // worker without a queue
    | Hold(h: Handle)                      // worker with a queue, about to grab its context
    | Run(h: Handle, i: nat, n: nat)       // worker in the dispatch loop
    | Deliver(h: Handle, m: Msg, i: nat, n: nat)
    | After(h: Handle)                     // dispatch loop done, about to look for another queue

  datatype State = State(services: map<Handle, Service>, global: seq<Handle>, threads: map<Tid, Pc>)

  datatype Act = New(h: Handle) | Succeed | Fail | Kill(h: Handle) | Send(h: Handle, m: Msg) | Go(weight: int)

  function To(s: State, t: Tid, pc: Pc): State {
    s.(threads := s.threads[t := pc])
  }

  function Set(s: State, h: Handle, v: Service): State {
    s.(services := s.services[h := v])
  }

  function ToGlobal(s: State, h: Handle, push: bool): State {
    if push then s.(global := s.global + [h]) else s
  }

  function Shift(n: nat, weight: nat): nat {
    if weight == 0 then n else Shift(n / 2, weight - 1)
  }

  /** One step of thread `t`; a step that does not apply changes nothing. */
  function Do(s: State, t: Tid, a: Act): State {
    if t !in s.threads then s
    else
      var pc := s.threads[t];
      match a
      case New(h) =>
        if pc.Idle? && h !in s.services then To(Set(s, h, NewService()), t, Init(h)) else s
      case Succeed => if pc.Init? then To(s, t, Release(pc.h, Launched(pc.h, Publish(pc.h, Announce(pc.h))))) else s
      case Fail => if pc.Init? then To(s, t, Release(pc.h, Retire(pc.h, MqRelease(pc.h, Idle)))) else s
      case Kill(h) => if pc.Idle? then To(s, t, Retire(h, Idle)) else s
      case Send(h, m) => if pc.Idle? then Grab(s, t, h, Sending(h, m), Idle) else s
      case Go(weight) => Continue(s, t, pc, weight)
  }

  /** `skynet_handle_grab`: a registered context is referenced once more. */
  function Grab(s: State, t: Tid, h: Handle, found: Pc, missing: Pc): State {
    if h in s.services && s.services[h].registered
    then To(Set(s, h, s.services[h].(ref := s.services[h].ref + 1)), t, found)
    else To(s, t, missing)
  }

  function Fetched(s: State, t: Tid, found: Handle -> Pc, none: Pc): State {
    if s.global == [] then To(s, t, none)
    else To(s.(global := s.global[1..]), t, found(s.global[0]))
  }

  function Continue(s: State, t: Tid, pc: Pc, weight: int): State {
    match pc
    case Fetch => Fetched(s, t, (q: Handle) => Hold(q), Fetch)
    case Hold(h) => Grab(s, t, h, Run(h, 0, 1), MqRelease(h, Fetch))
    case After(h) => Fetched(s, t, (q: Handle) => Publish(h, Release(h, Hold(q))), Release(h, Hold(h)))
    case Retire(h, next) =>
      if h in s.services && s.services[h].registered
      then To(Set(s, h, s.services[h].(registered := false)), t, Release(h, next))
      else To(s, t, next)
    case Idle => s
    case Init(_) => s
    case _ => if pc.h in s.services then OnService(s, t, pc, s.services[pc.h], weight) else s
  }

  /** What `skynet_context_new` does if releasing the context has deleted it. */
  function IfGone(next: Pc): Pc {
    if next.Launched? then Publish(next.h, Idle) else next
  }

  function OnService(s: State, t: Tid, pc: Pc, v: Service, weight: int): State {
    match pc
    case Sending(h, m) =>
      var (q, push) := v.queue.Push(m);
      To(ToGlobal(Set(s, h, v.(queue := q, pushed := v.pushed + [m])), h, push), t, Release(h, Idle))
    case Release(h, next) =>
      To(Set(s, h, v.(ref := v.ref - 1)), t, if v.ref == 1 then Mark(h, IfGone(next)) else next)
    case Launched(h, next) => To(Set(s, h, v.(init := true)), t, next)
    case Announce(h) => To(s, t, Idle)
    case Mark(h, next) =>
      var (q, push) := v.queue.MarkRelease();
      To(ToGlobal(Set(s, h, v.(queue := q)), h, push), t, next)
    case Publish(h, next) => To(ToGlobal(s, h, true), t, next)
    case MqRelease(h, next) =>
      if v.queue.release then To(s, t, Drop(h, next)) else To(ToGlobal(s, h, true), t, next)
    case Drop(h, next) =>
      var (q, m) := v.queue.Pop();
      if m.Some? then Set(s, h, v.(queue := q, fates := v.fates + [Dropped(m.value)]))
      else To(Set(s, h, v.(queue := q, freed := true)), t, next)
    case Run(h, i, n) =>
      if i >= n then To(s, t, After(h))
      else
        var (q, m) := v.queue.Pop();
        if m.Some? then To(Set(s, h, v.(queue := q, taken := [m.value])), t, Deliver(h, m.value, i, n))
        else To(Set(s, h, v.(queue := q)), t, Release(h, Fetch))
    case Deliver(h, m, i, n) =>
      var n' := if i == 0 && weight >= 0 then Shift(|v.queue.msgs|, weight) else n;
      To(Set(s, h, v.(fates := v.fates + [Delivered(m)], taken := [])), t, Run(h, i + 1, n'))
    case _ => s
  }

  // ----- who holds what -----

  /** The queues a thread has taken for itself. */
  function Owns(pc: Pc): set<Handle> {
    match pc
    case Init(h) => {h}
    case Release(_, next) => Owns(next)
    case Mark(_, next) => Owns(next)
    case Launched(h, next) => Owns(next)
    case Publish(h, next) => {h} + Owns(next)
    case Retire(_, next) => Owns(next)
    case MqRelease(h, next) => {h} + Owns(next)
    case Drop(h, next) => {h} + Owns(next)
    case Hold(h) => {h}
    case Run(h, _, _) => {h}
    case Deliver(h, _, _, _) => {h}
    case After(h) => {h}
    case _ => {}
  }

  /** The context on which a thread holds a reference. */
  function Holds(pc: Pc): Option<Handle> {
    match pc
    case Init(h) => Some(h)
    case Sending(h, _) => Some(h)
    case Release(h, _) => Some(h)
    case Publish(_, next) => Holds(next)
    case Run(h, _, _) => Some(h)
    case Deliver(h, _, _, _) => Some(h)
    case After(h) => Some(h)
    case _ => None
  }

  lemma GoneIsPlain(h: Handle, next: Pc)
    requires Tidy(Release(h, next))
    ensures Plain(IfGone(next)) && Tidy(IfGone(next)) && Holds(IfGone(next)) == None && Owns(IfGone(next)) == Owns(next)
    ensures Tidy(next) && Holds(next) == None && !next.Mark? && !next.Deliver? && !next.Drop?
  {
    if Plain(next) {
      PlainIsTidy(next);
    } else {
      LaunchingOwns(h);
      assert Owns(Idle) == {} && Holds(Idle) == None;
    }
  }

  lemma LaunchingOwns(h: Handle)
    ensures var after := Publish(h, Announce(h));
            Owns(after) == Owns(Launched(h, after)) == {h} && Holds(after) == None && Plain(after) && Tidy(after)
  {
    assert Owns(Announce(h)) == {} && Holds(Announce(h)) == None && Plain(Announce(h));
  }

  /** After giving up a reference a thread has none left, and it owns no queue twice. */
  predicate Tidy(pc: Pc) {
    match pc
    case Release(h, next) => Plain(next) || Launching(h, next)
    case Mark(_, next) => Plain(next)
    case Retire(_, next) => Plain(next)
    case Launched(h, next) => Launching(h, pc)
    case MqRelease(h, next) => Plain(next) && h !in Owns(next)
    case Drop(h, next) => Plain(next) && h !in Owns(next)
    case Publish(h, next) =>
      h !in Owns(next) && (Plain(next) || (next.Release? && Plain(next.next)))
    case _ => true
  }

  /** What is left of a launch. */
  predicate Launching(h: Handle, pc: Pc) {
    pc == Launched(h, Publish(h, Announce(h)))
  }

  /** The thread holds no reference and has nothing half done. */
  predicate Plain(pc: Pc) {
    match pc
    case Idle => true
    case Fetch => true
    case Hold(_) => true
    case Announce(_) => true
    case Retire(_, next) => Plain(next)
    case MqRelease(h, next) => Plain(next) && h !in Owns(next)
    case Publish(h, next) => Plain(next) && h !in Owns(next)
    case _ => false
  }

  lemma {:induction false} PlainIsTidy(pc: Pc)
    requires Plain(pc)
    ensures Tidy(pc) && Holds(pc) == None && !pc.Mark? && !pc.Deliver? && !pc.Drop?
  {
    match pc
    case Retire(_, next) => PlainIsTidy(next);
    case MqRelease(_, next) => PlainIsTidy(next);
    case Publish(_, next) => PlainIsTidy(next);
    case _ =>
  }

  // ----- counting -----

  datatype Role = Holder(h: Handle) | Owner(h: Handle) | Marker(h: Handle) | Taker(h: Handle)

  predicate Plays(pc: Pc, r: Role) {
    match r
    case Holder(h) => Holds(pc) == Some(h)
    case Owner(h) => h in Owns(pc)
    case Marker(h) => pc.Mark? && pc.h == h
    case Taker(h) => pc.Deliver? && pc.h == h
  }

  function Players(s: State, r: Role): set<Tid> {
    set t | t in s.threads && Plays(s.threads[t], r)
  }

  function One(b: bool): nat {
    if b then 1 else 0
  }

  lemma CountStep(s: State, s': State, t: Tid, r: Role)
    requires t in s.threads && t in s'.threads && s'.threads == s.threads[t := s'.threads[t]]
    ensures |Players(s', r)| == |Players(s, r)| - One(Plays(s.threads[t], r)) + One(Plays(s'.threads[t], r))
  {
    hide Plays;
    var rest := set u | u in s.threads && u != t && Plays(s.threads[u], r);
    Others(s, t, r, rest);
    Others(s', t, r, rest);
  }

  lemma Others(s: State, t: Tid, r: Role, rest: set<Tid>)
    requires t in s.threads && t !in rest
    requires forall u :: u != t ==> (u in rest <==> u in s.threads && Plays(s.threads[u], r))
    ensures |Players(s, r)| == |rest| + One(Plays(s.threads[t], r))
  {
    hide Plays;
    if Plays(s.threads[t], r) {
      assert Players(s, r) == rest + {t};
    } else {
      assert Players(s, r) == rest;
    }
  }

  /** How many threads hold, mark or take from a service, and how often its queue is owned or listed. */
  datatype View = View(hold: nat, mark: nat, take: nat, active: nat)

  function Listed(s: State, h: Handle): nat {
    multiset(s.global)[h]
  }

  lemma ListedMore(s: State, h: Handle, push: bool, k: Handle)
    ensures Listed(ToGlobal(s, h, push), k) == Listed(s, k) + One(push && k == h)
  {
  }

  lemma ListedLess(s: State, k: Handle)
    requires s.global != []
    ensures Listed(s, k) == multiset(s.global[1..])[k] + One(k == s.global[0])
  {
    assert s.global == [s.global[0]] + s.global[1..];
  }

  function ViewOf(s: State, h: Handle): View {
    View(|Players(s, Holder(h))|, |Players(s, Marker(h))|, |Players(s, Taker(h))|,
         |Players(s, Owner(h))| + Listed(s, h))
  }

  function RoleView(pc: Pc, h: Handle): View {
    View(One(Plays(pc, Holder(h))), One(Plays(pc, Marker(h))), One(Plays(pc, Taker(h))), One(Plays(pc, Owner(h))))
  }

  /** The view changes with the thread that moved and with the global list. */
  lemma ViewStep(s: State, s': State, t: Tid, h: Handle)
    requires t in s.threads && t in s'.threads && s'.threads == s.threads[t := s'.threads[t]]
    ensures var w, w', a, b := ViewOf(s, h), ViewOf(s', h), RoleView(s.threads[t], h), RoleView(s'.threads[t], h);
            w'.hold == w.hold - a.hold + b.hold && w'.mark == w.mark - a.mark + b.mark &&
                w'.take == w.take - a.take + b.take &&
            w'.active == w.active - a.active + b.active + Listed(s', h) - Listed(s, h)
  {
    CountStep(s, s', t, Holder(h));
    CountStep(s, s', t, Marker(h));
    CountStep(s, s', t, Taker(h));
    CountStep(s, s', t, Owner(h));
  }

  lemma Plays1(s: State, t: Tid, r: Role)
    requires t in s.threads && Plays(s.threads[t], r)
    ensures |Players(s, r)| >= 1
  {
    assert t in Players(s, r);
  }

  // ----- the invariant -----

  function Msgs(fates: seq<Fate>): seq<Msg> {
    seq(|fates|, i requires 0 <= i < |fates| => fates[i].m)
  }

  /** Deliveries come before drops, and drops only after release. */
  predicate Ordered(v: Service) {
    (forall i :: 0 <= i < |v.fates| && v.fates[i].Dropped? ==> v.queue.release) &&
    (forall i, j :: 0 <= i < j < |v.fates| && v.fates[i].Dropped? ==> v.fates[j].Dropped?)
  }

  /** What holds of every service, seen with the threads and the list around it. */
  predicate Local(v: Service, w: View) {
    // references: held by threads or by the handle table
    && v.ref == w.hold + One(v.registered)
    // deletion: exactly one thread marks, after the last reference is gone and before release
    && w.mark == One(v.ref == 0 && !v.queue.release)
    && (v.queue.release ==> v.ref == 0)
    // ownership: at most one owner or one place in the list
    && w.active <= 1
    && (w.active == 1 ==> !v.freed && (v.queue.inGlobal || v.queue.release))
    && (w.active == 0 && !v.freed ==> !v.queue.inGlobal && !v.queue.release && v.queue.msgs == [])
    && (v.freed ==> v.queue.release && v.queue.msgs == [])
    // messages: what was pushed has left, is being delivered, or is queued, in order
    && v.pushed == Msgs(v.fates) + v.taken + v.queue.msgs
    && |v.taken| == w.take && w.take <= 1
    && Ordered(v)
  }

  predicate ThreadOk(s: State, pc: Pc) {
    Tidy(pc) &&
    (pc.Drop? ==> pc.h in s.services && s.services[pc.h].queue.release) &&
    (pc.Deliver? ==> pc.h in s.services && s.services[pc.h].taken == [pc.m])
  }

  ghost predicate Inv(s: State) {
    (forall h :: h in s.services ==> Local(s.services[h], ViewOf(s, h))) &&
    (forall h :: h !in s.services ==> ViewOf(s, h) == View(0, 0, 0, 0)) &&
    forall t :: t in s.threads ==> ThreadOk(s, s.threads[t])
  }

  // ----- what the events do to one service -----

  lemma PushKeeps(v: Service, w: View, m: Msg)
    requires Local(v, w) && w.hold >= 1
    ensures var (q, push) := v.queue.Push(m);
            Local(v.(queue := q, pushed := v.pushed + [m]), w.(active := w.active + One(push)))
  {
    var (q, push) := v.queue.Push(m);
    assert v.pushed + [m] == Msgs(v.fates) + v.taken + (v.queue.msgs + [m]);
  }

  lemma ReleaseKeeps(v: Service, w: View)
    requires Local(v, w) && w.hold >= 1
    ensures Local(v.(ref := v.ref - 1), w.(hold := w.hold - 1, mark := w.mark + One(v.ref == 1)))
  {
  }

  lemma MarkKeeps(v: Service, w: View)
    requires Local(v, w) && w.mark >= 1
    ensures var (q, push) := v.queue.MarkRelease();
            Local(v.(queue := q), w.(mark := w.mark - 1, active := w.active + One(push)))
  {
  }

  lemma GrabKeeps(v: Service, w: View)
    requires Local(v, w) && v.registered
    ensures Local(v.(ref := v.ref + 1), w.(hold := w.hold + 1))
  {
  }

  lemma RetireKeeps(v: Service, w: View)
    requires Local(v, w) && v.registered
    ensures Local(v.(registered := false), w.(hold := w.hold + 1))
  {
  }

  /** An owner that holds a reference takes a message, or leaves an empty queue idle. */
  lemma PopKeeps(v: Service, w: View)
    requires Local(v, w) && w.hold >= 1 && w.active >= 1 && w.take == 0
    ensures var (q, m) := v.queue.Pop();
            if m.Some? then Local(v.(queue := q, taken := [m.value]), w.(take := 1))
            else Local(v.(queue := q), w.(active := 0))
  {
    assert v.taken == [];
    if v.queue.msgs != [] {
      assert v.queue.msgs == [v.queue.msgs[0]] + v.queue.msgs[1..];
      assert Msgs(v.fates) + [] + v.queue.msgs == Msgs(v.fates) + [v.queue.msgs[0]] + v.queue.msgs[1..];
    }
  }

  lemma MsgsNext(fates: seq<Fate>, f: Fate)
    ensures Msgs(fates + [f]) == Msgs(fates) + [f.m]
  {
  }

  lemma DeliverKeeps(v: Service, w: View, m: Msg)
    requires Local(v, w) && w.hold >= 1 && v.taken == [m]
    ensures Local(v.(fates := v.fates + [Delivered(m)], taken := []), w.(take := 0))
  {
    MsgsNext(v.fates, Delivered(m));
    assert Msgs(v.fates) + [m] + v.queue.msgs == (Msgs(v.fates) + [m]) + [] + v.queue.msgs;
  }

  lemma DropKeeps(v: Service, w: View)
    requires Local(v, w) && w.active >= 1 && v.queue.release && w.take == 0
    ensures var (q, m) := v.queue.Pop();
            if m.Some? then Local(v.(queue := q, fates := v.fates + [Dropped(m.value)]), w)
            else Local(v.(queue := q, freed := true), w.(active := 0))
  {
    assert v.taken == [];
    if v.queue.msgs != [] {
      MsgsNext(v.fates, Dropped(v.queue.msgs[0]));
      assert Msgs(v.fates) + [] + v.queue.msgs == (Msgs(v.fates) + [v.queue.msgs[0]]) + [] + v.queue.msgs[1..];
    }
  }

  // ----- every step keeps the invariant -----

  /** Thread `t` and the list play the same part for service `k` before and after. */
  predicate SameRoles(s: State, s': State, t: Tid, k: Handle)
    requires t in s.threads && t in s'.threads
  {
    var a, b := RoleView(s.threads[t], k), RoleView(s'.threads[t], k);
    a.hold == b.hold && a.mark == b.mark && a.take == b.take &&
    a.active + Listed(s, k) == b.active + Listed(s', k)
  }

  predicate Moved(s: State, s': State, t: Tid) {
    t in s.threads && t in s'.threads && s'.threads == s.threads[t := s'.threads[t]]
  }

  lemma SameView(s: State, s': State, t: Tid, k: Handle)
    requires Moved(s, s', t) && SameRoles(s, s', t, k)
    ensures ViewOf(s', k) == ViewOf(s, k)
  {
    ViewStep(s, s', t, k);
  }

  /** A step that changes one service keeps the invariant if that service stays in order. */
  lemma OneService(s: State, s': State, t: Tid, h: Handle)
    requires Inv(s) && Moved(s, s', t)
    requires h in s.services && h in s'.services && s'.services == s.services[h := s'.services[h]]
    requires Local(s'.services[h], ViewOf(s', h))
    requires forall k :: k != h ==> SameRoles(s, s', t, k)
    requires ThreadOk(s', s'.threads[t])
    requires s.services[h].queue.release ==> s'.services[h].queue.release
    requires s'.services[h].taken == s.services[h].taken || Plays(s.threads[t], Taker(h)) || s.services[h].taken == []
    ensures Inv(s')
  {
    hide Local, Tidy, Plays, ViewOf, SameRoles;
    forall k | k != h ensures ViewOf(s', k) == ViewOf(s, k) { SameView(s, s', t, k); }
    forall u | u in s'.threads ensures ThreadOk(s', s'.threads[u]) {
      if u != t { OtherThread(s, s', t, u, h); }
    }
  }

  lemma OtherThread(s: State, s': State, t: Tid, u: Tid, h: Handle)
    requires Inv(s) && t in s.threads && u in s.threads && u != t
    requires h in s.services && h in s'.services && s'.services == s.services[h := s'.services[h]]
    requires s.services[h].queue.release ==> s'.services[h].queue.release
    requires s'.services[h].taken == s.services[h].taken || Plays(s.threads[t], Taker(h)) || s.services[h].taken == []
    ensures ThreadOk(s', s.threads[u])
  {
    assert ThreadOk(s, s.threads[u]);
    if Plays(s.threads[u], Taker(h)) && s.services[h].taken != [] && Plays(s.threads[t], Taker(h)) {
      TwoTakers(s, t, u, h);
    }
  }

  lemma TwoTakers(s: State, t: Tid, u: Tid, h: Handle)
    requires h in s.services && ViewOf(s, h).take == |s.services[h].taken| && |s.services[h].taken| <= 1
    requires t in s.threads && u in s.threads && u != t
    ensures !Plays(s.threads[t], Taker(h)) || !Plays(s.threads[u], Taker(h))
  {
    if Plays(s.threads[t], Taker(h)) && Plays(s.threads[u], Taker(h)) {
      SubsetSize({t, u}, Players(s, Taker(h)));
    }
  }

  lemma SubsetSize(a: set<Tid>, b: set<Tid>)
    requires a <= b
    ensures |a| <= |b|
  {
    assert b == a + (b - a);
  }

  /** A step that changes no service keeps the invariant if nothing changes hands. */
  lemma NoService(s: State, s': State, t: Tid)
    requires Inv(s) && Moved(s, s', t) && s'.services == s.services
    requires forall k :: SameRoles(s, s', t, k)
    requires ThreadOk(s', s'.threads[t])
    ensures Inv(s')
  {
    hide Local, Tidy, Plays;
    forall k ensures ViewOf(s', k) == ViewOf(s, k) { SameView(s, s', t, k); }
    forall u | u in s'.threads ensures ThreadOk(s', s'.threads[u]) {
      assert u in s.threads && (u != t ==> ThreadOk(s, s.threads[u]));
    }
  }

  /** How the step changes the view of the service it is about. */
  lemma ViewAfter(s: State, s': State, t: Tid, h: Handle) returns (w: View)
    requires Inv(s) && Moved(s, s', t)
    ensures w == ViewOf(s', h)
    ensures var v, a, b := ViewOf(s, h), RoleView(s.threads[t], h), RoleView(s'.threads[t], h);
            w.hold == v.hold - a.hold + b.hold && w.mark == v.mark - a.mark + b.mark &&
                w.take == v.take - a.take + b.take &&
            w.active == v.active - a.active + b.active + Listed(s', h) - Listed(s, h)
  {
    ViewStep(s, s', t, h);
    w := ViewOf(s', h);
  }

  lemma ThreadFine(s: State, t: Tid)
    requires Inv(s) && t in s.threads
    ensures ThreadOk(s, s.threads[t])
  {
  }

  function Share(w: View, r: Role): nat {
    match r case Holder(_) => w.hold case Owner(_) => w.active case Marker(_) => w.mark case Taker(_) => w.take
  }

  /** A thread plays a part only for a service that exists and is in order. */
  lemma Knows(s: State, t: Tid, r: Role)
    requires Inv(s) && t in s.threads && Plays(s.threads[t], r)
    ensures r.h in s.services && Local(s.services[r.h], ViewOf(s, r.h)) && Share(ViewOf(s, r.h), r) >= 1
  {
    Plays1(s, t, r);
    assert ViewOf(s, r.h) != View(0, 0, 0, 0);
  }

  lemma StepSending(s: State, t: Tid, h: Handle, m: Msg)
    requires Inv(s) && t in s.threads && s.threads[t] == Sending(h, m)
    ensures h in s.services
    ensures var v := s.services[h];
            var (q, push) := v.queue.Push(m);
            Inv(To(ToGlobal(Set(s, h, v.(queue := q, pushed := v.pushed + [m])), h, push), t, Release(h, Idle)))
  {
    hide Inv, Local, ViewOf, Msgs;
    Knows(s, t, Holder(h));
    var v := s.services[h];
    var (q, push) := v.queue.Push(m);
    var s' := To(ToGlobal(Set(s, h, v.(queue := q, pushed := v.pushed + [m])), h, push), t, Release(h, Idle));
    PushKeeps(v, ViewOf(s, h), m);
    forall k ensures Listed(s', k) == Listed(s, k) + One(push && k == h) { ListedMore(s, h, push, k); }
    assert Owns(Idle) == {} && Owns(Release(h, Idle)) == {};
    var w := ViewAfter(s, s', t, h);
    OneService(s, s', t, h);
  }

  lemma StepRelease(s: State, t: Tid, h: Handle, next: Pc)
    requires Inv(s) && t in s.threads && s.threads[t] == Release(h, next)
    ensures h in s.services
    ensures var v := s.services[h];
            Inv(To(Set(s, h, v.(ref := v.ref - 1)), t, if v.ref == 1 then Mark(h, IfGone(next)) else next))
  {
    hide Inv, Local, ViewOf;
    ThreadFine(s, t);
    GoneIsPlain(h, next);
    Knows(s, t, Holder(h));
    var v := s.services[h];
    var s' := To(Set(s, h, v.(ref := v.ref - 1)), t, if v.ref == 1 then Mark(h, IfGone(next)) else next);
    ReleaseKeeps(v, ViewOf(s, h));
    var w := ViewAfter(s, s', t, h);
    OneService(s, s', t, h);
  }

  /** The context is marked as launched. */
  lemma StepLaunched(s: State, t: Tid, h: Handle, next: Pc)
    requires Inv(s) && t in s.threads && s.threads[t] == Launched(h, next)
    ensures h in s.services
    ensures Inv(To(Set(s, h, s.services[h].(init := true)), t, next))
  {
    hide Inv, Local, ViewOf;
    ThreadFine(s, t);
    LaunchingOwns(h);
    Knows(s, t, Owner(h));
    var s' := To(Set(s, h, s.services[h].(init := true)), t, next);
    InitIsLocal(s.services[h], ViewOf(s, h));
    var w := ViewAfter(s, s', t, h);
    OneService(s, s', t, h);
  }

  lemma InitIsLocal(v: Service, w: View)
    requires Local(v, w)
    ensures Local(v.(init := true), w)
  {
  }

  lemma StepMark(s: State, t: Tid, h: Handle, next: Pc)
    requires Inv(s) && t in s.threads && s.threads[t] == Mark(h, next)
    ensures h in s.services
    ensures var v := s.services[h];
            var (q, push) := v.queue.MarkRelease();
            Inv(To(ToGlobal(Set(s, h, v.(queue := q)), h, push), t, next))
  {
    hide Inv, Local, ViewOf, Msgs;
    ThreadFine(s, t);
    PlainIsTidy(next);
    Knows(s, t, Marker(h));
    var v := s.services[h];
    var (q, push) := v.queue.MarkRelease();
    var s' := To(ToGlobal(Set(s, h, v.(queue := q)), h, push), t, next);
    MarkKeeps(v, ViewOf(s, h));
    forall k ensures Listed(s', k) == Listed(s, k) + One(push && k == h) { ListedMore(s, h, push, k); }
    var w := ViewAfter(s, s', t, h);
    OneService(s, s', t, h);
  }

  lemma StepPublish(s: State, t: Tid, h: Handle, next: Pc)
    requires Inv(s) && t in s.threads && s.threads[t] == Publish(h, next)
    ensures Inv(To(ToGlobal(s, h, true), t, next))
  {
    hide Inv, Local;
    ThreadFine(s, t);
    if Plain(next) { PlainIsTidy(next); }
    PutBack(s, t, h, next);
  }

  lemma StepMqRelease(s: State, t: Tid, h: Handle, next: Pc)
    requires Inv(s) && t in s.threads && s.threads[t] == MqRelease(h, next)
    ensures h in s.services
    ensures Inv(if s.services[h].queue.release then To(s, t, Drop(h, next)) else To(ToGlobal(s, h, true), t, next))
  {
    hide Inv, Local;
    ThreadFine(s, t);
    Knows(s, t, Owner(h));
    PlainIsTidy(next);
    if s.services[h].queue.release {
      NoService(s, To(s, t, Drop(h, next)), t);
    } else {
      PutBack(s, t, h, next);
    }
  }

  /** An owned queue goes back to the global list. */
  lemma PutBack(s: State, t: Tid, h: Handle, next: Pc)
    requires Inv(s) && t in s.threads && ThreadOk(s, next)
    requires s.threads[t] == MqRelease(h, next) || s.threads[t] == Publish(h, next)
    requires h !in Owns(next) && !next.Mark? && !next.Deliver? && (s.threads[t].MqRelease? ==> Holds(next) == None)
    ensures Inv(To(ToGlobal(s, h, true), t, next))
  {
    hide Inv, Local, Tidy;
    var s' := To(ToGlobal(s, h, true), t, next);
    forall k ensures Listed(s', k) == Listed(s, k) + One(k == h) { ListedMore(s, h, true, k); }
    NoService(s, s', t);
  }

  lemma StepDrop(s: State, t: Tid, h: Handle, next: Pc)
    requires Inv(s) && t in s.threads && s.threads[t] == Drop(h, next)
    ensures h in s.services
    ensures var v := s.services[h];
            var (q, m) := v.queue.Pop();
            Inv(if m.Some? then Set(s, h, v.(queue := q, fates := v.fates + [Dropped(m.value)]))
                else To(Set(s, h, v.(queue := q, freed := true)), t, next))
  {
    hide Inv, Local, ViewOf;
    ThreadFine(s, t);
    Knows(s, t, Owner(h));
    var v := s.services[h];
    NoTaker(s, h);
    PlainIsTidy(next);
    DropKeeps(v, ViewOf(s, h));
    var (q, m) := v.queue.Pop();
    var s' := if m.Some? then Set(s, h, v.(queue := q, fates := v.fates + [Dropped(m.value)]))
              else To(Set(s, h, v.(queue := q, freed := true)), t, next);
    assert s'.threads == s.threads[t := s'.threads[t]];
    var w := ViewAfter(s, s', t, h);
    OneService(s, s', t, h);
  }

  lemma InOrder(s: State, h: Handle)
    requires Inv(s) && h in s.services
    ensures Local(s.services[h], ViewOf(s, h))
  {
  }

  lemma StepRetire(s: State, t: Tid, h: Handle, next: Pc)
    requires Inv(s) && t in s.threads && s.threads[t] == Retire(h, next)
    ensures Inv(if h in s.services && s.services[h].registered
                then To(Set(s, h, s.services[h].(registered := false)), t, Release(h, next))
                else To(s, t, next))
  {
    hide Inv, Local;
    ThreadFine(s, t);
    PlainIsTidy(next);
    if h in s.services && s.services[h].registered {
      InOrder(s, h);
      RetireKeeps(s.services[h], ViewOf(s, h));
      var s' := To(Set(s, h, s.services[h].(registered := false)), t, Release(h, next));
      var w := ViewAfter(s, s', t, h);
      OneService(s, s', t, h);
    } else {
      NoService(s, To(s, t, next), t);
    }
  }

  /** What a thread is to do next is in order and keeps hold of the same queues. */
  predicate Follows(s: State, t: Tid, pc: Pc, held: Option<Handle>)
    requires t in s.threads
  {
    ThreadOk(s, pc) && Owns(pc) == Owns(s.threads[t]) && Holds(pc) == held && !pc.Mark? && !pc.Deliver?
  }

  lemma StepGrabbed(s: State, t: Tid, h: Handle, found: Pc)
    requires Inv(s) && t in s.threads && h in s.services && s.services[h].registered
    requires Holds(s.threads[t]) == None && !s.threads[t].Mark? && !s.threads[t].Deliver?
    requires Follows(s, t, found, Some(h)) && !found.Drop?
    ensures Inv(To(Set(s, h, s.services[h].(ref := s.services[h].ref + 1)), t, found))
  {
    hide Inv, Local, Owns, Holds, Tidy;
    var s' := To(Set(s, h, s.services[h].(ref := s.services[h].ref + 1)), t, found);
    InOrder(s, h);
    GrabKeeps(s.services[h], ViewOf(s, h));
    var w := ViewAfter(s, s', t, h);
    OneService(s, s', t, h);
  }

  lemma StepMissed(s: State, t: Tid, missing: Pc)
    requires Inv(s) && t in s.threads
    requires Holds(s.threads[t]) == None && !s.threads[t].Mark? && !s.threads[t].Deliver?
    requires Follows(s, t, missing, None)
    ensures Inv(To(s, t, missing))
  {
    hide Inv, Local, Owns, Holds, Tidy;
    NoService(s, To(s, t, missing), t);
  }

  /** Grabbing a context, where the thread owns the same queues and holds nothing before. */
  lemma StepGrab(s: State, t: Tid, h: Handle, found: Pc, missing: Pc)
    requires Inv(s) && t in s.threads
    requires Holds(s.threads[t]) == None && !s.threads[t].Mark? && !s.threads[t].Deliver?
    requires ThreadOk(s, found) && ThreadOk(s, missing) && !found.Drop? && !found.Deliver?
    requires Owns(s.threads[t]) == Owns(found) == Owns(missing)
    requires Holds(found) == Some(h) && !found.Mark? && Holds(missing) == None && !missing.Mark? && !missing.Deliver?
    ensures Inv(Grab(s, t, h, found, missing))
  {
    hide Inv;
    if h in s.services && s.services[h].registered { StepGrabbed(s, t, h, found); } else { StepMissed(s, t, missing); }
  }

  lemma ListedKnown(s: State, h: Handle)
    requires Inv(s) && h in s.global
    ensures h in s.services && ViewOf(s, h).active <= 1
  {
    assert multiset(s.global)[h] > 0;
    assert ViewOf(s, h) != View(0, 0, 0, 0);
    InOrder(s, h);
  }

  /** Taking a queue off the global list. */
  lemma StepFetch(s: State, t: Tid, found: Pc)
    requires Inv(s) && t in s.threads && s.global != [] && ThreadOk(s, found) && !found.Deliver?
    requires Holds(found) == Holds(s.threads[t]) && !found.Mark? && !s.threads[t].Mark? && !s.threads[t].Deliver?
    requires s.global[0] in s.services && ViewOf(s, s.global[0]).active <= 1 ==>
               s.global[0] !in Owns(s.threads[t]) && Owns(found) == Owns(s.threads[t]) + {s.global[0]}
    ensures Inv(To(s.(global := s.global[1..]), t, found))
  {
    hide Inv, Local;
    var q := s.global[0];
    var s' := To(s.(global := s.global[1..]), t, found);
    forall k ensures Listed(s, k) == Listed(s', k) + One(k == q) { ListedLess(s, k); }
    ListedKnown(s, q);
    NoService(s, s', t);
  }

  /** Once a queue is released, no worker is delivering one of its messages. */
  lemma NoTaker(s: State, h: Handle)
    requires Inv(s) && h in s.services && s.services[h].queue.release
    ensures ViewOf(s, h).take == 0
  {
    assert Local(s.services[h], ViewOf(s, h));
    SubsetSize(Players(s, Taker(h)), Players(s, Holder(h)));
  }

  /** The owner of a queue is the only one who could be delivering from it. */
  lemma OnlyOwnerTakes(s: State, t: Tid, h: Handle)
    requires Inv(s) && h in s.services && t in s.threads && h in Owns(s.threads[t]) && !s.threads[t].Deliver?
    ensures ViewOf(s, h).take == 0
  {
    OneOwner(s, h);
    TakersOwn(s, t, h);
    hide Inv, Plays;
    var owners := Players(s, Owner(h));
    SubsetSize(Players(s, Taker(h)), owners - {t});
    assert owners == (owners - {t}) + {t};
  }

  lemma TakersOwn(s: State, t: Tid, h: Handle)
    requires t in s.threads && h in Owns(s.threads[t]) && !s.threads[t].Deliver?
    ensures t in Players(s, Owner(h)) && Players(s, Taker(h)) <= Players(s, Owner(h)) - {t}
  {
  }

  lemma OneOwner(s: State, h: Handle)
    requires Inv(s) && h in s.services
    ensures |Players(s, Owner(h))| <= 1
  {
    InOrder(s, h);
  }

  lemma StepPop(s: State, t: Tid, h: Handle, i: nat, n: nat)
    requires Inv(s) && t in s.threads && s.threads[t] == Run(h, i, n)
    ensures h in s.services
    ensures var v := s.services[h];
            var (q, m) := v.queue.Pop();
            Inv(if m.Some? then To(Set(s, h, v.(queue := q, taken := [m.value])), t, Deliver(h, m.value, i, n))
                else To(Set(s, h, v.(queue := q)), t, Release(h, Fetch)))
  {
    hide Inv, Local, ViewOf, Msgs;
    Knows(s, t, Owner(h));
    Knows(s, t, Holder(h));
    OnlyOwnerTakes(s, t, h);
    var v := s.services[h];
    PopKeeps(v, ViewOf(s, h));
    NothingTaken(s, h);
    var (q, m) := v.queue.Pop();
    if m.Some? {
      var s' := To(Set(s, h, v.(queue := q, taken := [m.value])), t, Deliver(h, m.value, i, n));
      var w := ViewAfter(s, s', t, h);
      OneService(s, s', t, h);
    } else {
      assert Owns(Fetch) == {} && Owns(Release(h, Fetch)) == {};
      var s' := To(Set(s, h, v.(queue := q)), t, Release(h, Fetch));
      var w := ViewAfter(s, s', t, h);
      OneService(s, s', t, h);
    }
  }

  lemma NothingTaken(s: State, h: Handle)
    requires Inv(s) && h in s.services && ViewOf(s, h).take == 0
    ensures s.services[h].taken == []
  {
    InOrder(s, h);
  }

  lemma StepDeliver(s: State, t: Tid, h: Handle, m: Msg, i: nat, n: nat, n': nat)
    requires Inv(s) && t in s.threads && s.threads[t] == Deliver(h, m, i, n)
    ensures h in s.services
    ensures var v := s.services[h];
            Inv(To(Set(s, h, v.(fates := v.fates + [Delivered(m)], taken := [])), t, Run(h, i + 1, n')))
  {
    hide Inv, Local, ViewOf, Msgs;
    ThreadFine(s, t);
    Knows(s, t, Holder(h));
    var v := s.services[h];
    DeliverKeeps(v, ViewOf(s, h), m);
    var s' := To(Set(s, h, v.(fates := v.fates + [Delivered(m)], taken := [])), t, Run(h, i + 1, n'));
    var w := ViewAfter(s, s', t, h);
    OneService(s, s', t, h);
  }

  /** A thread that plays the same part in another way. */
  lemma StepSame(s: State, t: Tid, pc: Pc)
    requires Inv(s) && t in s.threads && ThreadOk(s, pc)
    requires Owns(pc) == Owns(s.threads[t]) && Holds(pc) == Holds(s.threads[t])
    requires !pc.Mark? && !s.threads[t].Mark? && !pc.Deliver? && !s.threads[t].Deliver?
    ensures Inv(To(s, t, pc))
  {
    hide Local, Tidy;
    NoService(s, To(s, t, pc), t);
  }

  lemma NewIsLocal()
    ensures Local(NewService(), View(1, 0, 0, 1))
  {
  }

  /** A step that adds a service keeps the invariant if the new one is in order. */
  lemma OneMore(s: State, s': State, t: Tid, h: Handle)
    requires Inv(s) && Moved(s, s', t) && h !in s.services && h in s'.services
    requires s'.services == s.services[h := s'.services[h]]
    requires Local(s'.services[h], ViewOf(s', h))
    requires forall k :: k != h ==> SameRoles(s, s', t, k)
    requires ThreadOk(s', s'.threads[t])
    ensures Inv(s')
  {
    hide Local, Tidy, Plays, ViewOf, SameRoles;
    forall k | k != h ensures ViewOf(s', k) == ViewOf(s, k) { SameView(s, s', t, k); }
    forall u | u in s'.threads ensures ThreadOk(s', s'.threads[u]) {
      assert u in s.threads && (u != t ==> ThreadOk(s, s.threads[u]));
    }
  }

  lemma Unknown(s: State, h: Handle)
    requires Inv(s) && h !in s.services
    ensures ViewOf(s, h) == View(0, 0, 0, 0)
  {
  }

  lemma StepNew(s: State, t: Tid, h: Handle)
    requires Inv(s) && t in s.threads && s.threads[t].Idle? && h !in s.services
    ensures Inv(To(Set(s, h, NewService()), t, Init(h)))
  {
    hide Inv, Local;
    var s' := To(Set(s, h, NewService()), t, Init(h));
    Unknown(s, h);
    NewIsLocal();
    var w := ViewAfter(s, s', t, h);
    OneMore(s, s', t, h);
  }

  /** A worker takes the head of the global list, with a context in hand or not. */
  lemma StepTake(s: State, t: Tid)
    requires Inv(s) && t in s.threads && s.global != [] && (s.threads[t].Fetch? || s.threads[t].After?)
    ensures var q := s.global[0];
            var found := if s.threads[t].Fetch? then Hold(q)
                else Publish(s.threads[t].h, Release(s.threads[t].h, Hold(q)));
            Inv(To(s.(global := s.global[1..]), t, found))
  {
    hide Inv, Local, ViewOf, Tidy;
    var q := s.global[0];
    NotOwned(s, t, q);
    if s.threads[t].After? {
      var h := s.threads[t].h;
      TakenOwns(h, q);
      StepFetch(s, t, Publish(h, Release(h, Hold(q))));
    } else {
      TakenOwns(q + 1, q);
      StepFetch(s, t, Hold(q));
    }
  }

  /** What is listed belongs to no thread. */
  lemma NotOwned(s: State, t: Tid, q: Handle)
    requires Inv(s) && t in s.threads && q in s.global
    ensures q !in Owns(s.threads[t])
  {
    ListedKnown(s, q);
    assert multiset(s.global)[q] > 0;
    if q in Owns(s.threads[t]) { Plays1(s, t, Owner(q)); }
  }

  lemma TakenOwns(h: Handle, q: Handle)
    requires h != q
    ensures var pc := Publish(h, Release(h, Hold(q)));
            Tidy(pc) && Owns(pc) == {h, q} && Holds(pc) == Some(h) && Tidy(Hold(q)) && Owns(Hold(q)) == {q} &&
                Holds(Hold(q)) == None
  {
    assert Owns(Hold(q)) == {q} && Owns(Release(h, Hold(q))) == {q} && Plain(Hold(q));
    assert Holds(Release(h, Hold(q))) == Some(h);
  }

  lemma StepSucceed(s: State, t: Tid, h: Handle)
    requires Inv(s) && t in s.threads && s.threads[t] == Init(h)
    ensures Inv(To(s, t, Release(h, Launched(h, Publish(h, Announce(h))))))
  {
    LaunchingOwns(h);
    StepSame(s, t, Release(h, Launched(h, Publish(h, Announce(h)))));
  }

  /** Every step of every thread keeps the invariant. */
  lemma StepKeepsInv(s: State, t: Tid, a: Act)
    requires Inv(s)
    ensures Inv(Do(s, t, a))
  {
    if t in s.threads {
      var pc := s.threads[t];
      assert ThreadOk(s, pc);
      match a
      case New(h) => if pc.Idle? && h !in s.services { StepNew(s, t, h); }
      case Succeed =>
        if pc.Init? {
          StepSucceed(s, t, pc.h);
        }
      case Fail =>
        if pc.Init? {
          FailTidy(pc.h);
          StepSame(s, t, Release(pc.h, Retire(pc.h, MqRelease(pc.h, Idle))));
        }
      case Kill(h) => if pc.Idle? { assert Owns(Retire(h, Idle)) == Owns(Idle); StepSame(s, t, Retire(h, Idle)); }
      case Send(h, m) => if pc.Idle? { StepGrab(s, t, h, Sending(h, m), Idle); }
      case Go(weight) => ContinueKeepsInv(s, t, weight);
    }
  }

  lemma FailTidy(h: Handle)
    ensures var pc := Release(h, Retire(h, MqRelease(h, Idle)));
            Tidy(pc) && Owns(pc) == {h} && Holds(pc) == Some(h)
  {
    assert Owns(MqRelease(h, Idle)) == {h} && Plain(MqRelease(h, Idle));
    assert Owns(Retire(h, MqRelease(h, Idle))) == {h} && Plain(Retire(h, MqRelease(h, Idle)));
  }

  lemma ContinueKeepsInv(s: State, t: Tid, weight: int)
    requires Inv(s) && t in s.threads
    ensures Inv(Do(s, t, Go(weight)))
  {
    hide Inv, Local, ViewOf;
    var pc := s.threads[t];
    ThreadFine(s, t);
    match pc
    case Idle =>
    case Init(_) =>
    case Fetch => if s.global != [] { StepTake(s, t); } else { StepSame(s, t, Fetch); }
    case After(h) =>
      if s.global != [] { StepTake(s, t); }
      else {
        assert Owns(Release(h, Hold(h))) == Owns(Hold(h)) == {h};
        StepSame(s, t, Release(h, Hold(h)));
      }
    case Hold(h) =>
      assert Owns(MqRelease(h, Fetch)) == {h};
      StepGrab(s, t, h, Run(h, 0, 1), MqRelease(h, Fetch));
    case Sending(h, m) => StepSending(s, t, h, m);
    case Release(h, next) => StepRelease(s, t, h, next);
    case Mark(h, next) => StepMark(s, t, h, next);
    case Launched(h, next) => StepLaunched(s, t, h, next);
    case Announce(h) => StepSame(s, t, if h in s.services then Idle else pc);
    case Publish(h, next) => Knows(s, t, Owner(h)); StepPublish(s, t, h, next);
    case Retire(h, next) => StepRetire(s, t, h, next);
    case MqRelease(h, next) => StepMqRelease(s, t, h, next);
    case Drop(h, next) => StepDrop(s, t, h, next);
    case Run(h, i, n) =>
      if i >= n { Knows(s, t, Owner(h)); StepSame(s, t, After(h)); } else { StepPop(s, t, h, i, n); }
    case Deliver(h, m, i, n) =>
      StepDeliver(s, t, h, m, i, n, if i == 0 && weight >= 0 then Shift(|s.services[h].queue.msgs|, weight) else n);
  }

  // ----- whole runs -----

  datatype Event = Event(t: Tid, a: Act)

  function RunAll(s: State, run: seq<Event>): State
    decreases |run|
  {
    if run == [] then s else RunAll(Do(s, run[0].t, run[0].a), run[1..])
  }

  /** At the start there are no services; threads are idle, or workers looking for a queue. */
  predicate Initial(s: State) {
    s.services == map[] && s.global == [] &&
    forall t :: t in s.threads ==> s.threads[t] == Idle || s.threads[t] == Fetch
  }

  lemma InitialInv(s: State)
    requires Initial(s)
    ensures Inv(s)
  {
    forall h ensures ViewOf(s, h) == View(0, 0, 0, 0) {
      assert Players(s, Holder(h)) == {} && Players(s, Marker(h)) == {} && Players(s, Taker(h)) == {} &&
          Players(s, Owner(h)) == {};
    }
  }

  lemma {:induction false} RunKeepsInv(s: State, run: seq<Event>)
    requires Inv(s)
    ensures Inv(RunAll(s, run))
    decreases |run|
  {
    if run != [] {
      StepKeepsInv(s, run[0].t, run[0].a);
      RunKeepsInv(Do(s, run[0].t, run[0].a), run[1..]);
    }
  }

  // ----- what this means -----

  ghost predicate Owned(s: State, h: Handle) {
    exists t :: t in s.threads && h in Owns(s.threads[t])
  }

  predicate Runs(pc: Pc, h: Handle) {
    (pc.Run? || pc.Deliver? || pc.After?) && pc.h == h
  }

  /** The thread is about to lock or free the queue of `h`. */
  predicate Touches(pc: Pc, h: Handle) {
    match pc
    case Sending(g, _) => g == h
    case Mark(g, _) => g == h
    case Publish(g, _) => g == h
    case MqRelease(g, _) => g == h
    case Drop(g, _) => g == h
    case Run(g, _, _) => g == h
    case Hold(g) => g == h
    case _ => false
  }

  /** At most one thread runs a service. */
  lemma OneRunner(s: State, t: Tid, u: Tid, h: Handle)
    requires Inv(s) && t in s.threads && u in s.threads && Runs(s.threads[t], h) && Runs(s.threads[u], h)
    ensures t == u
  {
    hide Inv, Local, ViewOf;
    Knows(s, t, Owner(h));
    OneOwner(s, h);
    if t != u { SubsetSize({t, u}, Players(s, Owner(h))); }
  }

  /** A queue is never used after it has been freed. */
  lemma NoUseAfterFree(s: State, t: Tid, h: Handle)
    requires Inv(s) && t in s.threads && Touches(s.threads[t], h)
    ensures h in s.services && !s.services[h].freed
  {
    match s.threads[t]
    case Sending(_, _) => Knows(s, t, Holder(h));
    case Mark(_, _) => Knows(s, t, Marker(h));
    case _ => Knows(s, t, Owner(h));
  }

  /** A queue that still exists is in the list, owned by one thread, or idle; idle means empty and
      not released, so no message and no queue is stranded. */
  lemma NothingStranded(s: State, h: Handle)
    requires Inv(s) && h in s.services && !s.services[h].freed
    ensures s.services[h].queue.msgs != [] || s.services[h].queue.release ==>
              h in s.global || Owned(s, h)
  {
    InOrder(s, h);
    if h !in s.global && Players(s, Owner(h)) != {} {
      var t :| t in Players(s, Owner(h));
    }
  }

  /** The list holds a queue once, and not while a thread owns it. */
  lemma ListedOnce(s: State, h: Handle)
    requires Inv(s) && h in s.services
    ensures multiset(s.global)[h] <= 1
    ensures h in s.global ==> forall t :: t in s.threads ==> h !in Owns(s.threads[t])
  {
    InOrder(s, h);
    if h in s.global {
      assert multiset(s.global)[h] > 0;
      assert Players(s, Owner(h)) == {};
      forall t | t in s.threads ensures h !in Owns(s.threads[t]) {
        assert t !in Players(s, Owner(h));
      }
    }
  }

  /** Messages leave in the order in which they were pushed, each once: first delivered, and only
      after the last reference is gone dropped; when the queue is freed all of them have left. */
  predicate MessagesInOrder(v: Service) {
    v.pushed == Msgs(v.fates) + v.taken + v.queue.msgs &&
    (forall i, j :: 0 <= i < j < |v.fates| && v.fates[i].Dropped? ==> v.fates[j].Dropped?) &&
    ((exists i :: 0 <= i < |v.fates| && v.fates[i].Dropped?) ==> v.ref == 0) &&
    (v.freed ==> Msgs(v.fates) == v.pushed)
  }

  lemma InOrderAndOnce(s: State, h: Handle)
    requires Inv(s) && h in s.services
    ensures MessagesInOrder(s.services[h])
  {
    InOrder(s, h);
    if s.services[h].freed { NoTaker(s, h); }
  }

  /** Once its queue is freed, nothing happens to a service any more: it is freed once. */
  lemma FreedForGood(s: State, t: Tid, a: Act, h: Handle)
    requires Inv(s) && h in s.services && s.services[h].freed
    ensures h in Do(s, t, a).services && Do(s, t, a).services[h] == s.services[h]
  {
    InOrder(s, h);
    if t in s.threads {
      NoOneLeft(s, t, h);
      hide Inv, Local;
      OnlyUsersChange(s, t, a, h);
    }
  }

  lemma NoOneLeft(s: State, t: Tid, h: Handle)
    requires Inv(s) && h in s.services && s.services[h].freed && t in s.threads
    ensures !Uses(s.threads[t], h) && !s.services[h].registered
  {
    InOrder(s, h);
    if Plays(s.threads[t], Holder(h)) { Knows(s, t, Holder(h)); }
    if Plays(s.threads[t], Owner(h)) { Knows(s, t, Owner(h)); }
    if Plays(s.threads[t], Marker(h)) { Knows(s, t, Marker(h)); }
    LaunchedOwns(s, t, h);
  }

  lemma LaunchedOwns(s: State, t: Tid, h: Handle)
    requires Inv(s) && t in s.threads
    ensures s.threads[t].Launched? && s.threads[t].h == h ==> Plays(s.threads[t], Owner(h))
  {
    assert ThreadOk(s, s.threads[t]);
  }

  predicate Uses(pc: Pc, h: Handle) {
    Touches(pc, h) || ((pc.Release? || pc.Deliver? || pc.Launched?) && pc.h == h)
  }

  lemma OnlyUsersChange(s: State, t: Tid, a: Act, h: Handle)
    requires t in s.threads && h in s.services && !s.services[h].registered && !Uses(s.threads[t], h)
    ensures h in Do(s, t, a).services && Do(s, t, a).services[h] == s.services[h]
  {
  }

  lemma {:induction false} FreedStays(s: State, run: seq<Event>, h: Handle)
    requires Inv(s) && h in s.services && s.services[h].freed
    ensures var s' := RunAll(s, run); h in s'.services && s'.services[h] == s.services[h]
    decreases |run|
  {
    hide Inv;
    if run != [] {
      FreedForGood(s, run[0].t, run[0].a, h);
      StepKeepsInv(s, run[0].t, run[0].a);
      FreedStays(Do(s, run[0].t, run[0].a), run[1..], h);
    }
  }

  /** What holds of a service at every moment. */
  ghost predicate ServiceSafe(s: State, h: Handle)
    requires h in s.services
  {
    var v := s.services[h];
    && (!v.freed && (v.queue.msgs != [] || v.queue.release) ==> h in s.global || Owned(s, h))
    && multiset(s.global)[h] <= 1
    && (h in s.global ==> !Owned(s, h))
    && MessagesInOrder(v)
    && (v.freed ==> forall more: seq<Event> :: FreedAfter(s, more, h))
  }

  predicate FreedAfter(s: State, more: seq<Event>, h: Handle)
    requires h in s.services
  {
    var s' := RunAll(s, more);
    h in s'.services && s'.services[h] == s.services[h]
  }

  lemma InvIsSafe(s: State, h: Handle)
    requires Inv(s) && h in s.services
    ensures ServiceSafe(s, h)
  {
    if !s.services[h].freed { NothingStranded(s, h); }
    ListedOnce(s, h);
    InOrderAndOnce(s, h);
    hide Inv, MessagesInOrder;
    if s.services[h].freed {
      forall more: seq<Event> ensures FreedAfter(s, more, h) { FreedStays(s, more, h); }
    }
  }

  /** Over every interleaving of every number of threads: one runner per service, no use of a freed
      queue, nothing stranded, a queue listed once and not while owned, messages in order and once,
      drops only after the last reference is gone, and nothing after a queue is freed. */
  lemma DispatchSafe(s0: State, run: seq<Event>)
    requires Initial(s0)
    ensures var s := RunAll(s0, run);
            (forall t, u, h :: t in s.threads && u in s.threads && Runs(s.threads[t], h) && Runs(s.threads[u], h) ==>
             t == u) &&
            (forall t, h :: t in s.threads && Touches(s.threads[t], h) ==> h in s.services && !s.services[h].freed) &&
            (forall h :: h in s.services ==> ServiceSafe(s, h))
  {
    hide Inv, ServiceSafe;
    InitialInv(s0);
    RunKeepsInv(s0, run);
    var s := RunAll(s0, run);
    forall t, u, h | t in s.threads && u in s.threads && Runs(s.threads[t], h) && Runs(s.threads[u], h) ensures t == u {
      OneRunner(s, t, u, h);
    }
    forall t, h | t in s.threads && Touches(s.threads[t], h) ensures h in s.services && !s.services[h].freed {
      NoUseAfterFree(s, t, h);
    }
    forall h | h in s.services ensures ServiceSafe(s, h) { InvIsSafe(s, h); }
  }
}
