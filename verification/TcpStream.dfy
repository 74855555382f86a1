/** What is on the wire: whole packages, then at most the beginning of the one next in line; and
      no package is lost sight of. */
module TcpStream {
  import opened Wrappers
  import opened TcpSocket
  import opened TcpProtocol
  import opened TcpShape
  import opened TcpEffect
  import opened TcpOrder

  function All(p: Pkg): seq<Octet> {
    Span(p, 0, |p.data|)
  }

  function Flat(q: seq<Pkg>): seq<Octet> {
    if q == [] then [] else Flat(q[..|q| - 1]) + All(q[|q| - 1])
  }

  /** What has been sent of the first of these. */
  function Tip(q: seq<Buf>): seq<Octet> {
    if q == [] then [] else Span(q[0].p, 0, q[0].off)
  }

  /** The buffers not yet sent in full, in the order of sending. */
  function Line(s: State): seq<Buf> {
    Inflight(s) + Bufs(s.c)
  }

  predicate Streams(wire: seq<Octet>, done: seq<Pkg>, cut: Option<Buf>, line: seq<Buf>, torn: bool) {
    && (cut.Some? ==> cut.value.off > 0)
    && (!torn ==> wire == Flat(done) + Tip(AsSeq(cut) + line) && (cut.Some? ==> Fresh(line)))
  }

  /** The packages sent in full, then what has been sent of the first in line; or, once a forced
      close has discarded a package sent in part, that part, and nothing after it unless `torn`. */
  predicate StreamInv(s: State) {
    Streams(s.wire, s.done, s.cut, Line(s), s.torn)
  }

  lemma FlatMore(q: seq<Pkg>, p: Pkg)
    ensures Flat(q + [p]) == Flat(q) + All(p)
  {
    assert (q + [p])[..|q|] == q;
  }

  lemma FreshJoin(a: seq<Buf>, b: seq<Buf>)
    ensures Fresh(a + b) <==> Fresh(a) && Fresh(b)
  {
    if Fresh(a + b) {
      forall i | 0 <= i < |a| ensures a[i].off == 0 { assert (a + b)[i].off == 0; }
      forall i | 0 <= i < |b| ensures b[i].off == 0 { assert (a + b)[|a| + i].off == 0; }
    }
  }

  /** Only the first buffer in line can have been sent in part. */
  lemma LineTail(s: State)
    requires Shape(s)
    ensures Line(s) != [] ==> Fresh(Line(s)[1..])
  {
    var i, d, h, l := Inflight(s), AsSeq(s.c.dw), s.c.high, s.c.low;
    if i != [] {
      assert SeenOk(s, s.senders[s.lock.t]);
      assert Line(s)[1..] == h + l;
      FreshJoin(h, l);
    } else if d != [] {
      assert Line(s)[1..] == h + l;
      FreshJoin(h, l);
    } else if h != [] {
      assert Line(s)[1..] == h[1..] + l;
      FreshJoin(h[1..], l);
    } else {
      assert Line(s) == l;
    }
  }

  // ----- a step of a sender -----

  lemma DirectStreams(wire: seq<Octet>, done: seq<Pkg>, cut: Option<Buf>, q: seq<Buf>, torn: bool, p: Pkg, m: nat)
    requires Streams(wire, done, cut, q, torn) && Fresh(q) && m <= |p.data|
    ensures Streams(wire + Span(p, 0, m), if m == |p.data| then done + [p] else done, cut,
                    if m == |p.data| then q else [Buffer(p, m)] + q, torn || (cut.Some? && m > 0))
  {
    assert (q != [] ==> q[0].off == 0) && (m == 0 ==> Fresh(if m == |p.data| then q else [Buffer(p, m)] + q));
    hide Flat, Fresh;
    FlatMore(done, p);
    var q', piece := if m == |p.data| then q else [Buffer(p, m)] + q, Span(p, 0, m);
    if !torn && !(cut.Some? && m > 0) {
      assert wire == Flat(done) + Tip(AsSeq(cut) + q);
      if cut.None? {
        assert AsSeq(cut) + q == q && AsSeq(cut) + q' == q';
        assert Tip(q) == [] && Flat(done) + [] == Flat(done);
        assert wire + piece == Flat(done) + piece;
        if m == |p.data| { assert piece == All(p) && Flat(done + [p]) + [] == Flat(done + [p]); }
      } else {
        assert Tip(AsSeq(cut) + q) == Tip(AsSeq(cut) + q') && piece == [] && wire + piece == wire;
        if m == |p.data| { assert Flat(done) + All(p) == Flat(done); }
      }
    }
  }

  lemma WriteStreams(s: State, t: Tid, p: Pkg, n: nat)
    requires Shape(s) && StreamInv(s) && t in s.senders && s.senders[t] == Write(p)
    ensures StreamInv(DoSender(s, t, s.senders[t], n))
  {
    var s', m := DoSender(s, t, s.senders[t], n), Least(n, |p.data|);
    SenderMoves(s, t, n);
    SenderKeepsShape(s, t, n);
    SenderInflight(s, s', t);
    WriterSees(s, t);
    hide Shape, Moves, Inflight, Bufs, SeenOk, Streams, Fresh, LockInv;
    var q := Bufs(s.c);
    assert Line(s) == q;
    assert Line(s') == if m == |p.data| then q else [Buffer(p, m)] + q;
    DirectStreams(s.wire, s.done, s.cut, q, s.torn, p, m);
  }

  /** A sender that is about to write has seen that nothing has been sent in part. */
  lemma WriterSees(s: State, t: Tid)
    requires Shape(s) && t in s.senders && s.senders[t].Write?
    ensures Fresh(Bufs(s.c)) && s.lock == Sender(t) && Inflight(s) == []
  {
    assert SeenOk(s, s.senders[t]);
    assert Bufs(s.c) == s.c.high + s.c.low;
    FreshJoin(s.c.high, s.c.low);
  }

  lemma StoreStreams(s: State, t: Tid, b: Buf, n: nat)
    requires Shape(s) && t in s.senders && s.senders[t] == Store(b)
    ensures Line(DoSender(s, t, s.senders[t], n)) == Line(s)
  {
    var s' := DoSender(s, t, s.senders[t], n);
    SenderMoves(s, t, n);
    SenderKeepsShape(s, t, n);
    SenderInflight(s, s', t);
    assert s.c.dw == None by { assert SeenOk(s, s.senders[t]); }
    StoreOne(s, t, b, n);
    hide Shape, Moves, Inflight, DoSender, Bufs;
    StoreBufs(s.c, b);
  }

  lemma SenderKeepsStream(s: State, t: Tid, n: nat)
    requires Shape(s) && StreamInv(s) && t in s.senders
    ensures StreamInv(DoSender(s, t, s.senders[t], n))
  {
    match s.senders[t]
    case Write(p) => WriteStreams(s, t, p, n);
    case Store(b) =>
      StoreStreams(s, t, b, n);
      hide Streams, Line;
    case Push(p) =>
      SenderMoves(s, t, n);
      SenderKeepsShape(s, t, n);
      SenderInflight(s, DoSender(s, t, s.senders[t], n), t);
      hide Streams, Inflight, Shape, Moves;
    case _ =>
      SenderMoves(s, t, n);
      SenderKeepsShape(s, t, n);
      SenderInflight(s, DoSender(s, t, s.senders[t], n), t);
      SenderRests(s, t, n);
      hide Streams, Inflight, DoSender, Shape, Moves;
  }

  // ----- a step of the socket thread -----

  lemma QueueStreams(wire: seq<Octet>, done: seq<Pkg>, i: seq<Buf>, q: seq<Buf>, k: nat, p: Pkg)
    requires k <= |q| && Streams(wire, done, None, i + q, false) && (i + q != [] ==> Fresh((i + q)[1..]))
    requires k < |q| ==> q[k].off == 0
    ensures Streams(wire, done, None, i + (q[..k] + [Buffer(p, 0)] + q[k..]), false)
  {
    var q' := i + (q[..k] + [Buffer(p, 0)] + q[k..]);
    hide Flat, Fresh;
    assert AsSeq(None) + (i + q) == i + q && AsSeq(None) + q' == q';
    if i + q[..k] == [] {
      assert q' == [Buffer(p, 0)] + q;
    } else {
      assert q'[0] == (i + q)[0];
    }
  }

  lemma SendStreams(wire: seq<Octet>, done: seq<Pkg>, q: seq<Buf>, n: nat)
    requires q != [] && n <= Left(q[0]) && Streams(wire, done, None, q, false) && Fresh(q[1..])
    ensures Streams(wire + Span(q[0].p, q[0].off, q[0].off + n), if n == Left(q[0]) then done + [q[0].p] else done,
                    None,
                    if n == Left(q[0]) then q[1..] else [Advanced(q[0], n)] + q[1..], false)
  {
    var b := q[0];
    FlatMore(done, b.p);
    hide Flat;
    assert AsSeq(None) + q == q;
    var q' := if n == Left(b) then q[1..] else [Advanced(b, n)] + q[1..];
    assert AsSeq(None) + q' == q';
    assert Span(b.p, 0, b.off) + Span(b.p, b.off, b.off + n) == Span(b.p, 0, b.off + n);
    assert (Flat(done) + Span(b.p, 0, b.off)) + Span(b.p, b.off, b.off + n) ==
           Flat(done) + (Span(b.p, 0, b.off) + Span(b.p, b.off, b.off + n));
    if n == Left(b) {
      assert Tip(q') == [];
    }
  }

  lemma DropStreams(wire: seq<Octet>, done: seq<Pkg>, cut: Option<Buf>, a: seq<Buf>, gone: seq<Buf>)
    requires Streams(wire, done, cut, a + gone, false) && (a + gone != [] ==> Fresh((a + gone)[1..]))
    ensures Streams(wire, done, if cut.Some? then cut else Head(gone), a, false)
  {
    FreshJoin(a, gone);
    hide Flat;
    if cut.None? {
      assert AsSeq(cut) + (a + gone) == a + gone && AsSeq(cut) + a == a;
      if a != [] {
        assert (a + gone)[1..] == a[1..] + gone;
        FreshJoin(a[1..], gone);
      }
      if Head(gone).Some? {
        assert a == [] && AsSeq(Head(gone)) + a == [gone[0]];
      } else if a == [] {
        assert a + gone == gone;
      }
    }
  }

  lemma QueuesStream(s: State, s': State)
    requires Shape(s) && Leaves(s, s') && Queues(s, s') && StreamInv(s)
    ensures StreamInv(s')
  {
    SameInflight(s, s');
    LineTail(s);
    var p, q, k := s.pipe[0].p, Bufs(s.c), Place(s.c, s.pipe[0].p);
    assert k < |q| ==> q[k] == s.c.low[0];
    assert s.cut == None && Fresh(s.c.low);
    assert k < |q| ==> q[k].off == 0;
    hide Shape, Leaves, Bufs, Inflight, Flat, Tip, Fresh;
    if !s.torn {
      QueueStreams(s.wire, s.done, Inflight(s), q, k, p);
    }
  }

  lemma SendsStream(s: State, s': State)
    requires Shape(s) && Leaves(s, s') && SendsFirst(s, s') && StreamInv(s)
    ensures StreamInv(s')
  {
    SameInflight(s, s');
    LineTail(s);
    assert s.cut == None && Inflight(s) == [];
    var n := |s'.wire| - |s.wire|;
    hide Shape, Leaves, Bufs, Inflight, Flat, Tip, Fresh, Left;
    assert Line(s) == Bufs(s.c) && Line(s') == Bufs(s'.c);
    if !s.torn { SendStreams(s.wire, s.done, Bufs(s.c), n); }
  }

  lemma DropsTorn(wire: seq<Octet>, done: seq<Pkg>, cut: Option<Buf>, q: seq<Buf>, q': seq<Buf>, gone: seq<Buf>)
    requires Streams(wire, done, cut, q, true)
    ensures Streams(wire, done, if cut.Some? then cut else Head(gone), q', true)
  {
  }

  lemma DropParts(s: State, s': State) returns (gone: seq<Buf>)
    requires Drops(s, s')
    ensures Bufs(s.c) == Bufs(s'.c) + gone && s'.cut == (if s.cut.Some? then s.cut else Head(gone))
    ensures s'.done == s.done && s'.wire == s.wire && s'.torn == s.torn
  {
    hide Bufs, Head, Bag, SamePipe;
    gone := Bufs(s.c)[|Bufs(s'.c)|..];
  }

  lemma LineParts(s: State, s': State, gone: seq<Buf>)
    requires Inflight(s') == Inflight(s) && Bufs(s.c) == Bufs(s'.c) + gone
    ensures Line(s) == Line(s') + gone
  {
    hide Inflight, Bufs;
  }

  lemma DropsStream(s: State, s': State)
    requires Shape(s) && Leaves(s, s') && Drops(s, s') && StreamInv(s)
    ensures StreamInv(s')
  {
    SameInflight(s, s');
    LineTail(s);
    hide Shape, Leaves, Bufs, Inflight, Streams, Fresh, Head, Drops, Line;
    var gone := DropParts(s, s');
    LineParts(s, s', gone);
    if s.torn {
      DropsTorn(s.wire, s.done, s.cut, Line(s), Line(s'), gone);
    } else {
      DropStreams(s.wire, s.done, s.cut, Line(s'), gone);
    }
  }

  lemma ThreadKeepsStream(s: State, a: Act)
    requires Shape(s) && StreamInv(s)
    ensures StreamInv(DoThread(s, a))
  {
    var s' := DoThread(s, a);
    assert Sound(s);
    ThreadGoes(s, a);
    ThreadEffect(s, a);
    SameInflight(s, s');
    hide DoThread, Shape, Leaves, Inflight, Sound, Queues, SendsFirst, Drops, Streams, Counts;
    if Queues(s, s') { QueuesStream(s, s'); }
    else if SendsFirst(s, s') { SendsStream(s, s'); }
    else if Drops(s, s') { DropsStream(s, s'); }
  }

  // ----- what that means for the receiver -----

  /** `y` may follow `x`: the next byte of the package, or, after its last, the first of another. */
  predicate Follows(x: Octet, y: Octet) {
    if x.i + 1 < |x.p.data| then y == Octet(x.p, x.i + 1) else y.i == 0
  }

  /** A stream of whole packages, the last of which may be missing its end. */
  predicate Whole(w: seq<Octet>) {
    (w != [] ==> w[0].i == 0) && forall j :: 0 <= j < |w| - 1 ==> Follows(w[j], w[j + 1])
  }

  predicate AtEnd(w: seq<Octet>) {
    w != [] ==> w[|w| - 1].i + 1 >= |w[|w| - 1].p.data|
  }

  lemma WholeMore(w: seq<Octet>, p: Pkg, k: nat)
    requires Whole(w) && AtEnd(w) && k <= |p.data|
    ensures Whole(w + Span(p, 0, k)) && (k == |p.data| ==> AtEnd(w + All(p)))
  {
  }

  lemma {:induction false} FlatWhole(q: seq<Pkg>)
    ensures Whole(Flat(q)) && AtEnd(Flat(q))
  {
    if q != [] {
      FlatWhole(q[..|q| - 1]);
      WholeMore(Flat(q[..|q| - 1]), q[|q| - 1], |q[|q| - 1].data|);
    }
  }

  lemma NotWholeMore(w: seq<Octet>, v: seq<Octet>)
    requires !Whole(w)
    ensures !Whole(w + v)
  {
    if Whole(w + v) {
      assert w != [] ==> (w + v)[0] == w[0];
      forall j | 0 <= j < |w| - 1 ensures Follows(w[j], w[j + 1]) {
        assert Follows((w + v)[j], (w + v)[j + 1]);
      }
    }
  }

  lemma IntactWhole(s: State)
    requires StreamInv(s) && !s.torn
    ensures Whole(s.wire)
  {
    var q := AsSeq(s.cut) + Line(s);
    FlatWhole(s.done);
    if q == [] {
      assert s.wire == Flat(s.done);
    } else {
      WholeMore(Flat(s.done), q[0].p, q[0].off);
    }
  }

  /** A byte of another package after the part that was cut off. */
  lemma Tears(s: State, p: Pkg, n: nat)
    requires StreamInv(s) && !s.torn && s.cut.Some? && 0 < n <= |p.data|
    ensures !Whole(s.wire + Span(p, 0, n))
  {
    var w, b := s.wire, s.cut.value;
    assert w == Flat(s.done) + Span(b.p, 0, b.off);
    assert w[|w| - 1] == Octet(b.p, b.off - 1);
    var v := w + Span(p, 0, n);
    assert v[|w| - 1] == Octet(b.p, b.off - 1) && v[|w|] == Octet(p, 0);
    assert !Follows(v[|w| - 1], v[|w| - 1 + 1]);
  }

  /** A direct write keeps the stream whole exactly if it takes no byte or no forced close has
      discarded a package sent in part. */
  lemma DirectWriteWholeIff(s: State, t: Tid, n: nat)
    requires Shape(s) && StreamInv(s) && !s.torn && t in s.senders && s.senders[t].Write?
    ensures Whole(DoSender(s, t, s.senders[t], n).wire) <==>
            s.cut.None? || Least(n, |s.senders[t].p.data|) == 0
  {
    var s', p := DoSender(s, t, s.senders[t], n), s.senders[t].p;
    SenderKeepsStream(s, t, n);
    hide Shape, StreamInv, Whole;
    var m := Least(n, |p.data|);
    if s.cut.Some? && m > 0 { Tears(s, p, m); } else { IntactWhole(s'); }
  }
}
