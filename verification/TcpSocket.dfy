/** One TCP socket of `socket_server.c`: its two write lists, the rest of a direct write, and closing. */
module TcpSocket {
  import opened Wrappers

  type Byte = b: nat | b < 256

  /** A package handed over by `from`.  `nr` numbers the sends of the whole run, `ticket` the
      packages that went through the control pipe (0: written directly). */
  datatype Pkg = Pkg(from: nat, nr: nat, low: bool, data: seq<Byte>, ticket: nat)

  /** A package of which the first `off` bytes have been written; never all of them. */
  datatype Buffer = Buffer(p: Pkg, off: nat)
  type Buf = b: Buffer | b.off == 0 || b.off < |b.p.data| witness Buffer(Pkg(0, 0, false, [], 0), 0)

  datatype Kind = Connected | HalfRead | HalfWrite | Invalid

  /** What the source keeps in `struct socket`; `wb` is `wb_size`, `dw` is `dw_buffer` with its offset. */
  datatype Core = Core(kind: Kind, closing: bool, high: seq<Buf>, low: seq<Buf>, dw: Option<Buf>, wb: int)

  /** What `write` answers: how much it takes, try again later, or failure. */
  datatype Kernel = Takes(n: nat) | Busy | Broken

  /** What `send_list_tcp` returns: -1, SOCKET_ERR or SOCKET_RST. */
  datatype Ret = Nothing | Error | Reset

  function Left(b: Buf): nat {
    |b.p.data| - b.off
  }

  function Rest(b: Buf): seq<Byte> {
    b.p.data[b.off..]
  }

  function LeftAll(q: seq<Buf>): nat {
    if q == [] then 0 else Left(q[0]) + LeftAll(q[1..])
  }

  function RestAll(q: seq<Buf>): seq<Byte> {
    if q == [] then [] else Rest(q[0]) + RestAll(q[1..])
  }

  predicate Uncomplete(q: seq<Buf>) {
    q != [] && q[0].off > 0
  }

  function Pick(c: Core, low: bool): seq<Buf> {
    if low then c.low else c.high
  }

  function Put(c: Core, low: bool, q: seq<Buf>): Core {
    if low then c.(low := q) else c.(high := q)
  }

  predicate Empty(c: Core) {
    c.high == [] && c.low == []
  }

  // ----- closing -----

  /** `force_close`: first the lists are freed, then, under the lock, the socket is closed. */
  function Freed(c: Core): Core {
    c.(high := [], low := [])
  }

  function Shut(c: Core): Core {
    c.(kind := Invalid, dw := None)
  }

  function ForceClosed(c: Core): Core {
    if c.kind.Invalid? then c else Shut(Freed(c))
  }

  /** `close_write`, after a failed write. */
  function WriteFailed(c: Core): (Core, Ret) {
    if c.closing || c.kind.HalfRead? then (ForceClosed(c), Reset)
    else if c.kind.HalfWrite? then (c, Reset)
    else (c.(kind := HalfWrite), Error)
  }

  // ----- sending -----

  /** How much of the first buffer one `write` takes. */
  function Taken(b: Buf, k: Kernel): (n: nat)
    ensures n <= Left(b)
  {
    if k.Takes? then (if k.n <= Left(b) then k.n else Left(b)) else 0
  }

  function Advanced(b: Buf, n: nat): Buf
    requires n < Left(b)
  {
    b.(off := b.off + n)
  }

  /** A successful `write` for the first buffer of a list. */
  function AfterWrite(c: Core, low: bool, k: Kernel): Core
    requires Pick(c, low) != [] && k.Takes?
  {
    var q := Pick(c, low);
    var n := Taken(q[0], k);
    Put(c, low, if n == Left(q[0]) then q[1..] else [Advanced(q[0], n)] + q[1..]).(wb := c.wb - n)
  }

  /** `sent` are the bytes handed to the kernel, `next` the number of `write` calls so far. */
  datatype Sent = Sent(c: Core, ret: Ret, sent: seq<Byte>, next: nat)

  /** `send_list_tcp`; `kernel(i)` answers the i-th call of `write`. */
  function SendList(c: Core, low: bool, kernel: nat -> Kernel, i: nat): Sent
    decreases |Pick(c, low)|
  {
    var q := Pick(c, low);
    if q == [] then Sent(c, Nothing, [], i)
    else
      match kernel(i)
      case Broken => var (c', ret) := WriteFailed(c); Sent(c', ret, [], i + 1)
      case Busy => Sent(c, Nothing, [], i + 1)
      case Takes(_) =>
        var n := Taken(q[0], kernel(i));
        var c' := AfterWrite(c, low, kernel(i));
        if n == Left(q[0]) then
          var r := SendList(c', low, kernel, i + 1);
          r.(sent := Rest(q[0])[..n] + r.sent)
        else Sent(c', Nothing, Rest(q[0])[..n], i + 1)
  }

  function Raised(c: Core): Core
    requires c.low != []
  {
    c.(high := [c.low[0]], low := c.low[1..])
  }

  /** The rest of a direct write goes before the high list. */
  function TakeDirect(c: Core): Core {
    if c.dw.None? then c
    else c.(high := [c.dw.value] + c.high, dw := None, wb := c.wb + Left(c.dw.value))
  }

  /** Step 4 of `send_buffer_`. */
  function Drained(c: Core): Core {
    if c.closing then ForceClosed(c) else c
  }

  function SendLow(c: Core, kernel: nat -> Kernel, i: nat): Sent {
    var r := SendList(c, true, kernel, i);
    if r.ret != Nothing then r
    else if Uncomplete(r.c.low) then r.(c := Raised(r.c))
    else if r.c.low != [] then r
    else r.(c := Drained(r.c))
  }

  /** `send_buffer_`. */
  function SendBoth(c: Core, kernel: nat -> Kernel): Sent {
    var r := SendList(c, false, kernel, 0);
    if r.ret != Nothing || r.c.high != [] then r
    else if r.c.low != [] then var r' := SendLow(r.c, kernel, r.next); r'.(sent := r.sent + r'.sent)
    else r.(c := Drained(r.c))
  }

  /** `send_socket` for an open TCP socket. */
  predicate Refuses(c: Core) {
    c.kind.Invalid? || c.kind.HalfWrite? || c.closing
  }

  function Append(c: Core, p: Pkg): Core {
    var low := p.low && !Empty(c);
    Put(c, low, Pick(c, low) + [Buffer(p, 0)]).(wb := c.wb + |p.data|)
  }

  // ----- what is written is what was queued, in order -----

  /** `r` is what sending list `low` of `c` may lead to: the bytes sent and the bytes left are the
      bytes that were queued, and nothing else changes unless a write failed. */
  predicate Conserves(c: Core, low: bool, r: Sent) {
    && (r.ret != Reset ==> r.sent + RestAll(Pick(r.c, low)) == RestAll(Pick(c, low)))
    && (r.ret != Reset ==> Pick(r.c, !low) == Pick(c, !low) && r.c.dw == c.dw && r.c.closing == c.closing)
    && r.sent <= RestAll(Pick(c, low)) && r.c.wb == c.wb - |r.sent|
    && (r.ret == Nothing ==> r.c.kind == c.kind)
  }

  lemma Regroup(a: seq<Byte>, b: seq<Byte>, c: seq<Byte>)
    ensures (a + b) + c == a + (b + c)
  {
  }

  lemma Prefixed(a: seq<Byte>, b: seq<Byte>, c: seq<Byte>)
    requires b <= c
    ensures a + b <= a + c
  {
    assert c == b + c[|b|..];
    Regroup(a, b, c[|b|..]);
  }

  /** The first buffer goes out whole, then the others. */
  lemma WholeFirst(c: Core, low: bool, c': Core, r: Sent)
    requires Pick(c, low) != []
    requires c' == Put(c, low, Pick(c, low)[1..]).(wb := c.wb - Left(Pick(c, low)[0]))
    requires Conserves(c', low, r)
    ensures Conserves(c, low, r.(sent := Rest(Pick(c, low)[0]) + r.sent))
  {
    var first := Rest(Pick(c, low)[0]);
    var r' := r.(sent := first + r.sent);
    assert RestAll(Pick(c, low)) == first + RestAll(Pick(c', low));
    hide RestAll;
    Regroup(first, r.sent, RestAll(Pick(r.c, low)));
    Prefixed(first, r.sent, RestAll(Pick(c', low)));
    assert Pick(c', !low) == Pick(c, !low);
  }

  lemma PartOfFirst(c: Core, low: bool, c': Core, n: nat, i: nat)
    requires Pick(c, low) != [] && n < Left(Pick(c, low)[0])
    requires c' == Put(c, low, [Advanced(Pick(c, low)[0], n)] + Pick(c, low)[1..]).(wb := c.wb - n)
    ensures Conserves(c, low, Sent(c', Nothing, Rest(Pick(c, low)[0])[..n], i))
  {
    var q := Pick(c, low);
    var first, rest := Rest(q[0]), RestAll(q[1..]);
    assert Pick(c', low)[1..] == q[1..];
    assert RestAll(q) == first + rest && RestAll(Pick(c', low)) == Rest(Advanced(q[0], n)) + rest;
    hide RestAll;
    assert Rest(Advanced(q[0], n)) == first[n..];
    Regroup(first[..n], first[n..], rest);
    assert first[..n] + first[n..] == first;
  }

  /** Whatever the kernel takes. */
  lemma {:induction false} SendListConserves(c: Core, low: bool, kernel: nat -> Kernel, i: nat)
    ensures Conserves(c, low, SendList(c, low, kernel, i))
    decreases |Pick(c, low)|
  {
    var q := Pick(c, low);
    if q != [] && kernel(i).Takes? {
      hide Conserves;
      var n := Taken(q[0], kernel(i));
      var c' := AfterWrite(c, low, kernel(i));
      if n == Left(q[0]) {
        SendListConserves(c', low, kernel, i + 1);
        assert Rest(q[0])[..n] == Rest(q[0]);
        WholeFirst(c, low, c', SendList(c', low, kernel, i + 1));
      } else {
        PartOfFirst(c, low, c', n, i + 1);
      }
    }
  }

  lemma {:induction false} LeftIsLength(q: seq<Buf>)
    ensures LeftAll(q) == |RestAll(q)|
  {
    if q != [] { LeftIsLength(q[1..]); }
  }

  /** A list of which only the first buffer can be uncomplete. */
  predicate Fresh(q: seq<Buf>) {
    forall i :: 0 <= i < |q| ==> q[i].off == 0
  }

  lemma {:induction false} LowStaysFresh(c: Core, kernel: nat -> Kernel, i: nat)
    requires Fresh(c.low)
    ensures var r := SendList(c, true, kernel, i);
            && (r.c.low != [] ==> Fresh(r.c.low[1..]))
            && (r.ret != Nothing ==> Fresh(r.c.low))
    decreases |c.low|
  {
    if c.low != [] && kernel(i).Takes? && Taken(c.low[0], kernel(i)) == Left(c.low[0]) {
      LowStaysFresh(AfterWrite(c, true, kernel(i)), kernel, i + 1);
    }
  }

  function Queued(c: Core): seq<Byte> {
    RestAll(c.high) + RestAll(c.low)
  }

  lemma RaisedSame(c: Core)
    requires c.high == [] && c.low != []
    ensures Queued(Raised(c)) == Queued(c)
    ensures LeftAll(Raised(c).high) + LeftAll(Raised(c).low) == LeftAll(c.high) + LeftAll(c.low)
  {
    assert RestAll([c.low[0]]) == Rest(c.low[0]) + RestAll([]);
    assert LeftAll([c.low[0]]) == Left(c.low[0]) + LeftAll([]);
    assert RestAll(c.low) == Rest(c.low[0]) + RestAll(c.low[1..]);
  }

  /** Each byte queued is sent once and in order or still queued, unless a write fails, and `wb_size`
      is right; the socket is closed only when everything has been sent. */
  predicate Kept(c: Core, r: Sent) {
    && r.sent <= Queued(c)
    && (r.ret != Reset ==> r.sent + Queued(r.c) == Queued(c) && r.c.wb == LeftAll(r.c.high) + LeftAll(r.c.low))
    && (r.ret == Nothing && r.c.kind != c.kind ==> c.closing && r.sent == Queued(c))
  }

  /** What sending leads to: that, and what `send_buffer_` asserts about the low list holds again. */
  predicate InOrder(c: Core, r: Sent) {
    Kept(c, r) && (r.ret != Reset ==> Fresh(r.c.low))
  }

  /** One of the lists has been sent, the low one only if the high one is empty. */
  lemma ListKept(c: Core, low: bool, r: Sent)
    requires Conserves(c, low, r) && c.wb == LeftAll(c.high) + LeftAll(c.low) && (low ==> c.high == [])
    ensures Kept(c, r)
  {
    assert RestAll([]) == [] && LeftAll([]) == 0;
    hide RestAll, LeftAll;
    LeftIsLength(Pick(c, low));
    LeftIsLength(Pick(r.c, low));
    if low {
      assert Queued(c) == RestAll(c.low) && (r.ret != Reset ==> Queued(r.c) == RestAll(r.c.low));
    } else {
      Regroup(r.sent, RestAll(r.c.high), RestAll(c.low));
    }
  }

  lemma DrainedKept(c: Core, r: Sent)
    requires Kept(c, r) && r.ret == Nothing && Empty(r.c) && r.c.kind == c.kind && r.c.closing == c.closing
    ensures InOrder(c, r.(c := Drained(r.c)))
  {
    assert RestAll([]) == [] && LeftAll([]) == 0;
    hide RestAll, LeftAll;
  }

  lemma RaisedKept(c: Core, r: Sent)
    requires Kept(c, r) && r.ret == Nothing && r.c.high == [] && r.c.low != [] && Fresh(r.c.low[1..])
    requires r.c.kind == c.kind
    ensures InOrder(c, r.(c := Raised(r.c)))
  {
    RaisedSame(r.c);
    hide RestAll, LeftAll, Queued;
  }

  lemma SendLowInOrder(c: Core, kernel: nat -> Kernel, i: nat)
    requires c.high == [] && Fresh(c.low) && c.wb == LeftAll(c.low)
    ensures InOrder(c, SendLow(c, kernel, i))
  {
    assert LeftAll([]) == 0;
    hide SendList, LeftAll, Kept, Raised, Drained;
    SendListConserves(c, true, kernel, i);
    LowStaysFresh(c, kernel, i);
    var r := SendList(c, true, kernel, i);
    ListKept(c, true, r);
    if r.ret == Nothing {
      if r.c.low == [] { DrainedKept(c, r); } else if Uncomplete(r.c.low) { RaisedKept(c, r); }
    }
  }

  /** What the high list has sent, and then the low one. */
  lemma InOrderTwice(c: Core, r: Sent, l: Sent)
    requires Kept(c, r) && r.ret == Nothing && r.c.high == [] && r.c.low == c.low
    requires r.c.kind == c.kind && r.c.closing == c.closing && InOrder(r.c, l)
    ensures InOrder(c, l.(sent := r.sent + l.sent))
  {
    hide RestAll, LeftAll, Queued;
    Regroup(r.sent, l.sent, Queued(l.c));
    Prefixed(r.sent, l.sent, Queued(r.c));
  }

  lemma SendBothInOrder(c: Core, kernel: nat -> Kernel)
    requires Fresh(c.low) && c.wb == LeftAll(c.high) + LeftAll(c.low)
    ensures InOrder(c, SendBoth(c, kernel))
  {
    hide SendList, SendLow, Drained;
    SendListConserves(c, false, kernel, 0);
    var r := SendList(c, false, kernel, 0);
    ListKept(c, false, r);
    if r.ret == Nothing && r.c.high == [] {
      if r.c.low != [] {
        LowLeft(c, r);
        SendLowInOrder(r.c, kernel, r.next);
        InOrderTwice(c, r, SendLow(r.c, kernel, r.next));
      } else {
        DrainedKept(c, r);
      }
    }
  }

  lemma LowLeft(c: Core, r: Sent)
    requires Kept(c, r) && r.ret == Nothing && r.c.high == []
    ensures r.c.wb == LeftAll(r.c.low)
  {
    assert LeftAll([]) == 0;
  }

  // ----- the socket itself -----

  class Socket {
    var kind: Kind
    var closing: bool
    var high: seq<Buf>
    var low: seq<Buf>
    var dw: Option<Buf>
    var wb: int

    ghost function View(): Core
      reads this
    {
      Core(kind, closing, high, low, dw, wb)
    }

    /** `new_fd` for a TCP connection that is then started. */
    constructor ()
      ensures View() == Core(Connected, false, [], [], None, 0)
    {
      kind, closing, high, low, dw, wb := Connected, false, [], [], None, 0;
    }

    method ForceClose()
      modifies this
      ensures View() == ForceClosed(old(View()))
    {
      if kind.Invalid? { return; }
      high, low := [], [];
      kind, dw := Invalid, None;
    }

    method CloseWrite() returns (ret: Ret)
      modifies this
      ensures (View(), ret) == WriteFailed(old(View()))
    {
      if closing {
        ForceClose();
        return Reset;
      }
      if kind == HalfRead {
        ForceClose();
        return Reset;
      }
      if kind == HalfWrite { return Reset; }
      kind := HalfWrite;
      return Error;
    }

    method SetList(isLow: bool, q: seq<Buf>)
      modifies `high, `low
      ensures View() == Put(old(View()), isLow, q)
    {
      if isLow { low := q; } else { high := q; }
    }

    /** Bytes already sent, then the rest of the way. */
    static ghost function After(sent: seq<Byte>, r: Sent): Sent {
      r.(sent := sent + r.sent)
    }

    static lemma OneSent(sent: seq<Byte>, c: Core, isLow: bool, kernel: nat -> Kernel, i: nat)
      requires Pick(c, isLow) != [] && kernel(i).Takes? &&
               Taken(Pick(c, isLow)[0], kernel(i)) == Left(Pick(c, isLow)[0])
      ensures After(sent, SendList(c, isLow, kernel, i)) ==
              After(sent + Rest(Pick(c, isLow)[0]), SendList(AfterWrite(c, isLow, kernel(i)), isLow, kernel, i + 1))
      ensures Pick(AfterWrite(c, isLow, kernel(i)), isLow) == Pick(c, isLow)[1..]
      ensures Rest(Pick(c, isLow)[0])[..Taken(Pick(c, isLow)[0], kernel(i))] == Rest(Pick(c, isLow)[0])
    {
      var b := Pick(c, isLow)[0];
      assert Rest(b)[..Left(b)] == Rest(b);
      Regroup(sent, Rest(b), SendList(AfterWrite(c, isLow, kernel(i)), isLow, kernel, i + 1).sent);
    }

    static lemma LastSent(c: Core, isLow: bool, kernel: nat -> Kernel, i: nat)
      ensures Pick(c, isLow) == [] ==> SendList(c, isLow, kernel, i) == Sent(c, Nothing, [], i)
      ensures Pick(c, isLow) != [] && kernel(i).Broken? ==>
                SendList(c, isLow, kernel, i) == Sent(WriteFailed(c).0, WriteFailed(c).1, [], i + 1)
      ensures Pick(c, isLow) != [] && kernel(i).Busy? ==> SendList(c, isLow, kernel, i) == Sent(c, Nothing, [], i + 1)
      ensures Pick(c, isLow) != [] && kernel(i).Takes? &&
              Taken(Pick(c, isLow)[0], kernel(i)) < Left(Pick(c, isLow)[0]) ==>
                SendList(c, isLow, kernel, i) == Sent(AfterWrite(c, isLow, kernel(i)), Nothing,
                                                      Rest(Pick(c, isLow)[0])[..Taken(Pick(c, isLow)[0], kernel(i))],
                                                          i + 1)
    {
    }

    /** A write that the kernel takes, for the first buffer of a list. */
    method WriteFirst(isLow: bool, k: Kernel) returns (sent: seq<Byte>, whole: bool)
      requires Pick(View(), isLow) != [] && k.Takes?
      modifies this
      ensures View() == AfterWrite(old(View()), isLow, k)
      ensures var b := old(Pick(View(), isLow)[0]);
              sent == Rest(b)[..Taken(b, k)] && (whole <==> Taken(b, k) == Left(b))
    {
      var q := if isLow then low else high;
      var n := Taken(q[0], k);
      sent := q[0].p.data[q[0].off..][..n];
      wb := wb - n;
      whole := n == Left(q[0]);
      SetList(isLow, if whole then q[1..] else [Advanced(q[0], n)] + q[1..]);
    }

    method SendListTcp(isLow: bool, kernel: nat -> Kernel, i: nat) returns (ret: Ret, sent: seq<Byte>, next: nat)
      modifies this
      ensures Sent(View(), ret, sent, next) == SendList(old(View()), isLow, kernel, i)
    {
      hide SendList, WriteFailed, AfterWrite, Taken;
      sent, next := [], i;
      while (if isLow then low else high) != []
        invariant After(sent, SendList(View(), isLow, kernel, next)) == SendList(old(View()), isLow, kernel, i)
        decreases |if isLow then low else high|
      {
        ghost var c := View();
        LastSent(c, isLow, kernel, next);
        var k := kernel(next);
        next := next + 1;
        if k.Broken? {
          ret := CloseWrite();
          return;
        }
        if k.Busy? { return Nothing, sent, next; }
        var out, whole := WriteFirst(isLow, k);
        if !whole { return Nothing, sent + out, next; }
        OneSent(sent, c, isLow, kernel, next - 1);
        sent := sent + out;
      }
      LastSent(View(), isLow, kernel, next);
      ret := Nothing;
    }

    method RaiseUncomplete()
      requires low != []
      modifies this
      ensures View() == Raised(old(View()))
    {
      var tmp := low[0];
      low := low[1..];
      high := [tmp];
    }

    method SendBuffers(kernel: nat -> Kernel) returns (ret: Ret, ghost sent: seq<Byte>, next: nat)
      modifies this
      ensures Sent(View(), ret, sent, next) == SendBoth(old(View()), kernel)
    {
      var out;
      ret, out, next := SendListTcp(false, kernel, 0);
      sent := out;
      if ret != Nothing { return; }
      if high == [] {
        if low != [] {
          ret, out, next := SendListTcp(true, kernel, next);
          sent := sent + out;
          if ret != Nothing { return; }
          if low != [] && low[0].off > 0 {
            RaiseUncomplete();
            return;
          }
          if low != [] { return; }
        }
        if closing { ForceClose(); }
      }
    }

    /** `send_buffer`, once the lock has been taken. */
    method SendBuffer(kernel: nat -> Kernel) returns (ret: Ret, ghost sent: seq<Byte>, next: nat)
      modifies this
      ensures Sent(View(), ret, sent, next) == SendBoth(TakeDirect(old(View())), kernel)
    {
      if dw.Some? {
        wb := wb + Left(dw.value);
        high := [dw.value] + high;
        dw := None;
      }
      ret, sent, next := SendBuffers(kernel);
    }

    /** `send_socket`; says whether the package was queued. */
    method SendSocket(p: Pkg) returns (queued: bool)
      modifies this
      ensures queued == !Refuses(old(View()))
      ensures View() == if queued then Append(old(View()), p) else old(View())
    {
      if kind == Invalid || kind == HalfWrite || closing { return false; }
      if high == [] && low == [] {
        high := high + [Buffer(p, 0)];
      } else if p.low {
        low := low + [Buffer(p, 0)];
      } else {
        high := high + [Buffer(p, 0)];
      }
      wb := wb + |p.data|;
      return true;
    }
  }
}
