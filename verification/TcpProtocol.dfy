/** One opened TCP socket of `socket_server.c` under any number of senders and the socket thread.
    Every read of a shared field, every change of one and every system call is a step of its own. */
module TcpProtocol {
  import opened Wrappers
  import opened TcpSocket

  type Tid = nat

  /** Requests in the control pipe: 'D' and 'P', 'W', 'K'.  `due` records what had been accepted
      when the request was made. */
  datatype Cmd = Send(p: Pkg) | Wake | Close(shutdown: bool, due: set<Pkg>)

  /** Where a sender is in `socket_server_send`. */
  datatype Pc =
    | Idle
    | Probe(p: Pkg, locked: bool, stage: nat)  // can_direct_write, before and after trylock
    | TryLock(p: Pkg)
    | Write(p: Pkg)                            // about to call write
    | Store(b: Buf)                            // written in part, about to set dw_buffer
    | Leave(stored: bool)                      // about to unlock
    | Waking                                   // about to send 'W'
    | Inc(p: Pkg)                              // about to call inc_sending_ref
    | Push(p: Pkg)                             // about to send 'D' or 'P'

  /** Where the socket thread is. */
  datatype Thread =
    | Poll
    | Dec                                      // about to call dec_sending_ref
    | Look(dw: bool, byClose: bool)            // nomore_sending_data: reading dw_buffer or sending
    | Force(report: bool, why: End)            // force_close, waiting for the lock
    | Flush(low: bool)                         // in send_list, lock held
    | Raise
    | Finish

  /** Why the socket was closed. */
  datatype End = Open | Flushed | Quiet | WriteError | HalfWritten | Shutdown | Remote | Eof

  datatype Lock = Free | Sender(t: Tid) | Server

  datatype Event = Data | Closed | Err

  /** Byte `i` of a package. */
  datatype Octet = Octet(p: Pkg, i: nat)

  /** `wire` is what the kernel took and `done` the packages it took in full; `cut` is a partly
      sent package that a forced close discarded, `torn` that bytes followed it. */
  datatype State = State(
    c: Core, sending: nat, pipe: seq<Cmd>, lock: Lock, senders: map<Tid, Pc>, thread: Thread,
    wire: seq<Octet>, events: seq<Event>, clock: nat, tickets: nat,
    done: seq<Pkg>, accepted: multiset<Pkg>, refused: multiset<Pkg>, lost: multiset<Pkg>,
    due: set<Pkg>, end: End, cut: Option<Buf>, torn: bool)

  datatype Heard = Got | NothingYet | Zero | Failed

  datatype Act =
    | Begin(t: Tid, low: bool, data: seq<Byte>)  // a service calls socket_server_send[_lowpriority]
    | Work(t: Tid, n: nat)                       // its next step; write takes at most n bytes
    | Stop(shutdown: bool)                       // a service calls socket_server_close or _shutdown
    | Pop                                        // the socket thread takes a request,
    | CanWrite | CanRead(heard: Heard) | Fault | HangUp  // or an event,
    | Go(k: Kernel)                              // or goes on

  function To(s: State, t: Tid, pc: Pc): State {
    s.(senders := s.senders[t := pc])
  }

  function Least(a: nat, b: nat): nat {
    if a <= b then a else b
  }

  /** The bytes of a package from `a` to `b`. */
  function Span(p: Pkg, a: nat, b: nat): seq<Octet>
    requires a <= b
  {
    seq(b - a, i requires 0 <= i < b - a => Octet(p, a + i))
  }

  const MAX_SENDING: nat := 0xffff

  function Do(s: State, a: Act): State {
    match a
    case Begin(t, low, data) =>
      if t in s.senders && s.senders[t].Idle? && !s.c.kind.Invalid? && (low || !s.c.closing)
      then Started(s, t, Pkg(t, s.clock, low, data, 0)) else s
    case Work(t, n) => if t in s.senders then DoSender(s, t, s.senders[t], n) else s
    case Stop(shutdown) => s.(pipe := s.pipe + [Close(shutdown, set p | p in s.accepted)])
    case _ => DoThread(s, a)
  }

  function Started(s: State, t: Tid, p: Pkg): State {
    To(s.(clock := s.clock + 1), t, if p.low then Inc(p) else Probe(p, false, 0))
  }

  // ----- senders -----

  /** The reads of `can_direct_write`, in the order of the source. */
  predicate Passes(s: State, stage: nat) {
    match stage
    case 0 => s.c.high == []
    case 1 => s.c.low == []
    case 2 => s.c.dw == None
    case 3 => s.sending == 0
    case _ => s.c.kind.Connected?
  }

  function DoSender(s: State, t: Tid, pc: Pc, n: nat): State {
    match pc
    case Idle => s
    case Probe(p, locked, stage) => Probed(s, t, p, locked, stage)
    case TryLock(p) => if s.lock.Free? then To(s.(lock := Sender(t)), t, Probe(p, true, 0)) else To(s, t, Inc(p))
    case Write(p) => Written(s, t, p, Least(n, |p.data|))
    case Store(b) => To(s.(c := s.c.(dw := Some(b)), accepted := s.accepted + multiset{b.p}), t, Leave(true))
    case Leave(stored) => To(s.(lock := Free), t, if stored then Waking else Idle)
    case Waking => To(s.(pipe := s.pipe + [Wake]), t, Idle)
    case Inc(p) => if s.sending < MAX_SENDING then To(s.(sending := s.sending + 1), t, Push(p)) else s
    case Push(p) =>
      var q := p.(ticket := s.tickets + 1);
      To(s.(pipe := s.pipe + [Send(q)], tickets := s.tickets + 1, accepted := s.accepted + multiset{q}), t, Idle)
  }

  /** One read of `can_direct_write`. */
  function Probed(s: State, t: Tid, p: Pkg, locked: bool, stage: nat): State {
    if !Passes(s, stage) then To(if locked then s.(lock := Free) else s, t, Inc(p))
    else if stage < 4 then To(s, t, Probe(p, locked, stage + 1))
    else To(s, t, if locked then Write(p) else TryLock(p))
  }

  /** A direct write of which the kernel takes `n` bytes. */
  function Written(s: State, t: Tid, p: Pkg, n: nat): State
    requires n <= |p.data|
  {
    var s' := s.(wire := s.wire + Span(p, 0, n), torn := s.torn || (s.cut.Some? && n > 0));
    if n == |p.data| then To(s'.(done := s.done + [p], accepted := s.accepted + multiset{p}), t, Leave(false))
    else To(s', t, Store(Buffer(p, n)))
  }

  // ----- the socket thread -----

  function DoThread(s: State, a: Act): State {
    match s.thread
    case Poll =>
      (match a
       case Pop => if s.pipe == [] then s else Popped(s.(pipe := s.pipe[1..]), s.pipe[0])
       case CanWrite =>
         if s.c.kind.Invalid? || !s.lock.Free? then s
         else s.(lock := Server, c := TakeDirect(s.c), thread := Flush(false))
       case CanRead(heard) => if s.c.kind.Invalid? then s else Read(s, heard)
       case Fault => if s.c.kind.Invalid? then s else s.(events := s.events + [Err])
       case HangUp => if s.c.kind.Invalid? then s else Forced(s, !s.c.kind.HalfRead?, Eof)
       case _ => s)
    case Dec => if a.Go? then s.(sending := if s.sending > 0 then s.sending - 1 else 0, thread := Poll) else s
    case Look(dw, byClose) => if a.Go? then Looked(s, dw, byClose) else s
    case Force(report, why) => if a.Go? && s.lock.Free? then Ended(s, report, why) else s
    case Flush(low) => if a.Go? then Flushing(s, low, a.k) else s
    case Raise => if a.Go? && s.c.low != [] then Unlock(s.(c := Raised(s.c))) else s
    case Finish =>
      if !a.Go? then s
      else Unlock(s.(c := Drained(s.c), end := if s.c.closing && !s.c.kind.Invalid? then Flushed else s.end))
  }

  function Unlock(s: State): State {
    s.(lock := Free, thread := Poll)
  }

  function Popped(s: State, cmd: Cmd): State {
    match cmd
    case Wake => s
    case Send(p) =>
      if Refuses(s.c) then s.(thread := Dec, refused := s.refused + multiset{p})
      else s.(thread := Dec, c := Append(s.c, p))
    case Close(shutdown, due) =>
      if s.c.kind.Invalid? then s
      else if shutdown then Forced(s, !s.c.kind.HalfRead?, Shutdown)
      else
        var s' := s.(due := if s.c.closing then s.due else due);
        if Empty(s.c) then s'.(thread := Look(true, true)) else Judged(s', false, true)
  }

  /** `nomore_sending_data`, once the lists have been found empty. */
  function Looked(s: State, dw: bool, byClose: bool): State {
    if dw then (if s.c.dw == None then s.(thread := Look(false, byClose)) else Judged(s, false, byClose))
    else Judged(s, s.sending == 0, byClose)
  }

  /** What `close_socket` and `forward_message_tcp` make of the answer. */
  function Judged(s: State, nomore: bool, byClose: bool): State {
    if nomore || s.c.kind.HalfWrite? then Forced(s, !s.c.kind.HalfRead?, if s.c.kind.HalfWrite? then HalfWritten
                                                 else Quiet)
    else if !byClose then s.(thread := Poll)
    else ReadClosed(s.(c := s.c.(closing := true), thread := Poll))
  }

  /** `close_read`, unless the reading side is closed already. */
  function ReadClosed(s: State): State {
    if s.c.kind.HalfRead? then s
    else s.(c := s.c.(kind := HalfRead), events := s.events + [Closed])
  }

  function Read(s: State, heard: Heard): State {
    match heard
    case Failed => s.(events := s.events + [Err])
    case NothingYet => s
    case Zero =>
      if s.c.closing then (if Empty(s.c) then s.(thread := Look(true, false)) else Judged(s, false, false))
      else if s.c.kind.HalfWrite? then Forced(s, true, Remote)
      else ReadClosed(s)
    case Got => if s.c.kind.HalfRead? then s else s.(events := s.events + [Data])
  }

  function Pkgs(q: seq<Buf>): seq<Pkg> {
    seq(|q|, i requires 0 <= i < |q| => q[i].p)
  }

  function Bag(q: seq<Buf>): multiset<Pkg> {
    multiset(Pkgs(q))
  }

  /** The partly sent buffer at the head of a list. */
  function Head(q: seq<Buf>): Option<Buf> {
    if Uncomplete(q) then Some(q[0]) else None
  }

  /** The first half of `force_close`: the lists are freed, the lock is still to be taken. */
  function Forced(s: State, report: bool, why: End): State {
    s.(c := Freed(s.c), lost := s.lost + Bag(s.c.high + s.c.low), cut := Head(s.c.high),
       thread := Force(report, why))
  }

  function AsSeq(b: Option<Buf>): seq<Buf> {
    if b.Some? then [b.value] else []
  }

  /** The second half, under the lock. */
  function Ended(s: State, report: bool, why: End): State {
    var dw := AsSeq(s.c.dw);
    s.(c := Shut(s.c), lost := s.lost + Bag(dw), cut := if s.cut.Some? then s.cut else Head(dw),
       events := if report then s.events + [Closed] else s.events, end := why, thread := Poll)
  }

  /** One `write` in `send_list_tcp`, or the end of the list. */
  function Flushing(s: State, low: bool, k: Kernel): State {
    var q := Pick(s.c, low);
    if q == [] then s.(thread := if !low && s.c.low != [] then Flush(true) else Finish)
    else
      match k
      case Busy => Unlock(s)
      case Broken => Hurt(s)
      case Takes(_) =>
        var n := Taken(q[0], k);
        var s' := s.(c := AfterWrite(s.c, low, k), wire := s.wire + Span(q[0].p, q[0].off, q[0].off + n));
        if n == Left(q[0]) then s'.(done := s.done + [q[0].p])
        else if low && Uncomplete(s'.c.low) then s'.(thread := Raise)
        else Unlock(s')
  }

  /** `close_write`, with the lock held. */
  function Hurt(s: State): State {
    var (c', ret) := WriteFailed(s.c);
    var s' := Unlock(s.(c := c', events := if ret == Error then s.events + [Err] else s.events));
    if c'.kind == s.c.kind || ret == Error then s'
    else s'.(lost := s.lost + Bag(s.c.high + s.c.low), cut := Head(s.c.high), end := WriteError)
  }

  // ----- runs -----

  predicate Opened(s: State) {
    && s == State(Core(Connected, false, [], [], None, 0), 0, [], Free, s.senders, Poll, [], [], 0, 0,
                  [], multiset{}, multiset{}, multiset{}, {}, Open, None, false)
    && forall t :: t in s.senders ==> s.senders[t].Idle?
  }

  function Run(s: State, acts: seq<Act>): State {
    if acts == [] then s else Do(Run(s, acts[..|acts| - 1]), acts[|acts| - 1])
  }
}
