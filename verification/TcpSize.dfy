/** `wb_size` is the number of bytes in the two write lists. */
module TcpSize {
  import opened TcpSocket
  import opened TcpProtocol
  import opened TcpShape

  predicate Sized(c: Core) {
    !c.kind.Invalid? ==> c.wb == LeftAll(c.high) + LeftAll(c.low)
  }

  predicate SizeInv(s: State) {
    !s.thread.Force? ==> Sized(s.c)
  }

  lemma {:induction false} LeftJoin(a: seq<Buf>, b: seq<Buf>)
    ensures LeftAll(a + b) == LeftAll(a) + LeftAll(b)
  {
    if a == [] {
      assert a + b == b;
    } else {
      assert (a + b)[1..] == a[1..] + b;
      LeftJoin(a[1..], b);
    }
  }

  lemma LeftOne(b: Buf)
    ensures LeftAll([b]) == Left(b)
  {
    assert LeftAll([b]) == Left(b) + LeftAll([]);
  }

  lemma AppendSized(c: Core, p: Pkg)
    requires Sized(c)
    ensures Sized(Append(c, p))
  {
    var low, one := p.low && !Empty(c), [Buffer(p, 0)];
    LeftJoin(Pick(c, low), one);
    LeftOne(one[0]);
    hide LeftAll;
  }

  lemma TakeDirectSized(c: Core)
    requires Sized(c)
    ensures Sized(TakeDirect(c))
  {
    if c.dw.Some? {
      LeftJoin([c.dw.value], c.high);
      LeftOne(c.dw.value);
      hide LeftAll;
    }
  }

  lemma RaisedSized(c: Core)
    requires Sized(c) && c.high == [] && c.low != []
    ensures Sized(Raised(c))
  {
    LeftJoin([c.low[0]], c.low[1..]);
    LeftOne(c.low[0]);
    assert [c.low[0]] + c.low[1..] == c.low && LeftAll([]) == 0;
    hide LeftAll;
  }

  lemma WriteSized(c: Core, low: bool, k: Kernel)
    requires Sized(c) && Pick(c, low) != [] && k.Takes?
    ensures Sized(AfterWrite(c, low, k))
  {
    var q := Pick(c, low);
    var n := Taken(q[0], k);
    LeftJoin([q[0]], q[1..]);
    LeftOne(q[0]);
    assert [q[0]] + q[1..] == q;
    if n < Left(q[0]) {
      LeftJoin([Advanced(q[0], n)], q[1..]);
      LeftOne(Advanced(q[0], n));
    }
    hide LeftAll;
  }

  lemma JudgedSized(s: State, nomore: bool, byClose: bool)
    requires Sized(s.c) && !s.c.kind.Invalid?
    ensures SizeInv(Judged(s, nomore, byClose))
  {
    hide Bag, Head, LeftAll;
  }

  lemma PoppedSized(s: State, cmd: Cmd)
    requires s.thread.Poll? && Sized(s.c)
    ensures SizeInv(Popped(s, cmd))
  {
    hide Judged, Append, Bag, Head, LeftAll;
    match cmd
    case Send(p) => AppendSized(s.c, p);
    case Wake =>
    case Close(_, due) => if !s.c.kind.Invalid? { JudgedSized(s.(due := if s.c.closing then s.due else due), false,
                                                              true); }
  }

  lemma ReadSized(s: State, heard: Heard)
    requires Sized(s.c) && !s.c.kind.Invalid?
    ensures SizeInv(Read(s, heard))
  {
    hide Judged, Bag, Head, LeftAll;
    JudgedSized(s, false, false);
  }

  lemma LookedSized(s: State, dw: bool, byClose: bool)
    requires Sized(s.c) && !s.c.kind.Invalid?
    ensures SizeInv(Looked(s, dw, byClose))
  {
    hide Judged, Sized;
    JudgedSized(s, false, byClose);
    JudgedSized(s, s.sending == 0, byClose);
  }

  lemma HurtSized(s: State)
    requires Sized(s.c) && !s.c.kind.Invalid?
    ensures SizeInv(Hurt(s))
  {
    hide LeftAll, Bag, Head;
  }

  lemma FlushingSized(s: State, low: bool, k: Kernel)
    requires Sized(s.c) && !s.c.kind.Invalid?
    ensures SizeInv(Flushing(s, low, k))
  {
    HurtSized(s);
    hide AfterWrite, Hurt, Span, Left, Taken, Uncomplete, Sized;
    if Pick(s.c, low) != [] && k.Takes? { WriteSized(s.c, low, k); }
  }

  lemma LocalSized(s: State)
    requires Sound(s) && Sized(s.c)
    ensures Sized(Drained(s.c)) && Sized(TakeDirect(s.c)) && (s.thread.Raise? ==> Sized(Raised(s.c)))
  {
    TakeDirectSized(s.c);
    if s.thread.Raise? { RaisedSized(s.c); }
    hide LeftAll, TakeDirect, Raised, ListsInv;
  }

  lemma ThreadKeepsSize(s: State, a: Act)
    requires Sound(s) && SizeInv(s)
    ensures SizeInv(DoThread(s, a))
  {
    assert Sized(Shut(s.c));
    hide Popped, Read, Looked, Flushing, Drained, TakeDirect, Raised, ListsInv, Sized, Bag, Head, AsSeq;
    if !s.thread.Force? {
      LocalSized(s);
      assert s.thread.Look? || s.thread.Flush? ==> !s.c.kind.Invalid?;
      match s.thread
      case Poll =>
        if a.Pop? && s.pipe != [] { PoppedSized(s.(pipe := s.pipe[1..]), s.pipe[0]); }
        if a.CanRead? && !s.c.kind.Invalid? { ReadSized(s, a.heard); }
      case Look(dw, byClose) => LookedSized(s, dw, byClose);
      case Flush(low) => if a.Go? { FlushingSized(s, low, a.k); }
      case _ =>
    }
  }
}
