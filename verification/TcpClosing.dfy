/** Closing: SOCKET_CLOSE is raised once, nothing is read after it, and a close request lets
      everything accepted before it go out first. */
module TcpClosing {
  import opened Wrappers
  import opened TcpSocket
  import opened TcpProtocol
  import opened TcpShape
  import opened TcpEffect
  import opened TcpOrder
  import opened TcpAccount
  import opened TcpControl

  // ----- events -----

  /** After SOCKET_CLOSE only errors are reported. */
  predicate ClosedOnce(events: seq<Event>) {
    forall i, j :: 0 <= i < j < |events| && events[i].Closed? ==> events[j].Err?
  }

  predicate EventInv(s: State) {
    ClosedOnce(s.events) && (Closed in s.events <==> Over(s.c))
  }

  lemma TellsKeeps(s: State, s': State)
    requires EventInv(s) && Tells(s, s')
    ensures EventInv(s')
  {
  }

  // ----- what a close request waits for -----

  predicate SentAll(s: State, d: set<Pkg>) {
    forall p :: p in d ==> p in s.done
  }

  /** Sent or stored. */
  predicate Has(s: State, p: Pkg) {
    p in s.done || p in Pkgs(Bufs(s.c))
  }

  predicate Held(s: State, d: set<Pkg>) {
    forall p :: p in d ==> Has(s, p)
  }

  predicate Gone(s: State, p: Pkg) {
    p in s.refused || p in s.lost
  }

  /** What had been accepted when the request at place `k` was made is sent, stored, gone, or asked
      for by an earlier request. */
  predicate Covered(s: State, k: nat)
    requires k < |s.pipe| && s.pipe[k].Close?
  {
    forall p :: p in s.pipe[k].due ==> Has(s, p) || Gone(s, p) || p in Asked(s.pipe[..k])
  }

  predicate PipeInv(s: State) {
    forall k :: 0 <= k < |s.pipe| && s.pipe[k].Close? ==> Covered(s, k)
  }

  predicate Dead(s: State) {
    s.c.kind.Invalid? || s.thread.Force?
  }

  predicate DueInv(s: State) {
    && ((s.c.closing || s.thread.Look?) && !Dead(s) && !s.c.kind.HalfWrite? ==> Held(s, s.due))
    && (s.thread.Look? && !s.thread.dw && !s.c.kind.HalfWrite? ==> SentAll(s, s.due))
    && ((s.thread.Force? && s.thread.why == Quiet) || s.end == Quiet || s.end == Flushed ==> SentAll(s, s.due))
    && (!Dead(s) ==> s.lost == multiset{})
    && (s.end == Flushed ==> s.lost == multiset{})
    && (s.refused != multiset{} ==> Refuses(s.c))
    && (s.end != Open <==> s.c.kind.Invalid?)
    && (s.thread.Force? ==> s.thread.why != Flushed && s.thread.why != Open)
    && ((s.thread.Force? && ByPeer(s.thread.why)) || ByPeer(s.end) ==> !s.c.closing)
    && (s.torn ==> Dead(s))
  }

  lemma SentStep(s: State, s': State, d: set<Pkg>)
    requires Effect(s, s') && SentAll(s, d)
    ensures SentAll(s', d)
  {
    hide Bag, Asked, Bufs, Counts, Head, Span;
  }

  lemma HasAt(s: State, i: nat)
    requires i < |Bufs(s.c)|
    ensures Has(s, Bufs(s.c)[i].p)
  {
    assert Pkgs(Bufs(s.c))[i] == Bufs(s.c)[i].p;
  }

  lemma QueuesHas(s: State, s': State, i: nat)
    requires Queues(s, s') && i < |Bufs(s.c)|
    ensures Has(s', Bufs(s.c)[i].p)
  {
    hide Has, AllLow;
    var k := Place(s.c, s.pipe[0].p);
    assert k <= |Bufs(s.c)|;
    hide Bufs;
    var j := if i < k then i else i + 1;
    assert Bufs(s'.c)[j] == Bufs(s.c)[i];
    HasAt(s', j);
  }

  lemma SendsHas(s: State, s': State, i: nat)
    requires SendsFirst(s, s') && i < |Bufs(s.c)|
    ensures Has(s', Bufs(s.c)[i].p)
  {
    hide Bufs, Span;
    var n := |s'.wire| - |s.wire|;
    if n == Left(Bufs(s.c)[0]) {
      if i > 0 {
        assert Bufs(s'.c)[i - 1] == Bufs(s.c)[i];
        HasAt(s', i - 1);
      }
    } else {
      assert Bufs(s'.c)[i].p == Bufs(s.c)[i].p;
      HasAt(s', i);
    }
  }

  lemma DropsHas(s: State, s': State, i: nat)
    requires Drops(s, s') && i < |Bufs(s.c)|
    ensures Has(s', Bufs(s.c)[i].p) || (Dead(s') && Bufs(s.c)[i].p in s'.lost)
  {
    hide Bufs, Has, Head;
    var m := |Bufs(s'.c)|;
    var gone := Bufs(s.c)[m..];
    if i < m {
      assert Bufs(s'.c)[i] == Bufs(s.c)[i];
      HasAt(s', i);
    } else {
      assert Pkgs(gone)[i - m] == Bufs(s.c)[i].p;
    }
  }

  /** Every step keeps what is sent or stored, unless it is gone. */
  lemma ThreadHas(s: State, s': State, p: Pkg)
    requires Effect(s, s') && Has(s, p)
    ensures Has(s', p) || (Dead(s') && p in s'.lost)
  {
    if p in s.done {
      SentStep(s, s', {p});
    } else {
      var i :| 0 <= i < |Bufs(s.c)| && Pkgs(Bufs(s.c))[i] == p;
      hide Bag, Bufs, Counts, Queues, SendsFirst, Drops;
      if Queues(s, s') { QueuesHas(s, s', i); }
      else if SendsFirst(s, s') { SendsHas(s, s', i); }
      else if Drops(s, s') { DropsHas(s, s', i); }
    }
  }

  lemma ThreadGone(s: State, s': State, p: Pkg)
    requires Effect(s, s') && Gone(s, p)
    ensures Gone(s', p)
  {
    if Queues(s, s') { QueuesFacts(s, s'); }
    hide Bag, Asked, Bufs, Counts, Head, Span, Queues;
  }

  /** The send request taken from the pipe is stored or turned away. */
  lemma AskedHas(s: State, s': State)
    requires Effect(s, s') && s.pipe != [] && s.pipe[0].Send? && s'.pipe == s.pipe[1..] && s'.pipe != s.pipe
    ensures Has(s', s.pipe[0].p) || Gone(s', s.pipe[0].p)
  {
    hide Bag, Asked, Counts, Head, Span;
    if Queues(s, s') {
      var k := Place(s.c, s.pipe[0].p);
      assert k <= |Bufs(s.c)|;
      hide Bufs;
      assert Bufs(s'.c)[k] == Buffer(s.pipe[0].p, 0);
      assert Pkgs(Bufs(s'.c))[k] == s.pipe[0].p;
    }
  }

  lemma ThreadPipe(s: State, s': State)
    requires Effect(s, s')
    ensures s'.pipe == s.pipe || (s.pipe != [] && s'.pipe == s.pipe[1..])
  {
    hide Bag, Bufs, Counts, Head, Span;
  }

  lemma LostGone(s: State, p: Pkg)
    ensures p in s.lost ==> Gone(s, p)
  {
  }

  lemma AskedFirst(pipe: seq<Cmd>)
    requires pipe != []
    ensures Asked(pipe) == (if pipe[0].Send? then [pipe[0].p] else []) + Asked(pipe[1..])
  {
  }

  lemma ThreadKeepsPipe(s: State, s': State)
    requires Effect(s, s') && PipeInv(s)
    ensures PipeInv(s')
  {
    ThreadPipe(s, s');
    hide Effect, Has, Gone, Asked;
    forall k, p | 0 <= k < |s'.pipe| && s'.pipe[k].Close? && p in s'.pipe[k].due
      ensures Has(s', p) || Gone(s', p) || p in Asked(s'.pipe[..k])
    {
      var j := if s'.pipe == s.pipe then k else k + 1;
      assert s.pipe[j] == s'.pipe[k] && Covered(s, j);
      if Has(s, p) {
        ThreadHas(s, s', p);
        LostGone(s', p);
      } else if Gone(s, p) {
        ThreadGone(s, s', p);
      } else if j != k {
        var pre := s.pipe[..j];
        assert pre[0] == s.pipe[0] && pre[1..] == s'.pipe[..k];
        AskedFirst(pre);
        if pre[0].Send? { AskedHas(s, s'); }
      }
    }
  }

  // The pieces of DueInv, one step of the socket thread later.

  lemma HeldStep(s: State, s': State, d: set<Pkg>)
    requires Effect(s, s') && Held(s, d) && !Dead(s')
    ensures Held(s', d)
  {
    hide Effect, Has;
    forall p | p in d ensures Has(s', p) { ThreadHas(s, s', p); }
  }

  /** With nothing stored, everything held has been sent. */
  lemma HeldSent(s: State, d: set<Pkg>)
    requires Held(s, d) && Bufs(s.c) == []
    ensures SentAll(s, d)
  {
    hide Bufs;
    assert Pkgs(Bufs(s.c)) == [];
    assert forall p :: p in d ==> Has(s, p);
  }

  /** What had been accepted when the first request to close was made is there when it is taken. */
  lemma FirstHeld(s: State)
    requires PipeInv(s) && DueInv(s) && s.thread.Poll? && s.pipe != [] && s.pipe[0].Close? && !Refuses(s.c)
    ensures Held(s, s.pipe[0].due)
  {
    assert Covered(s, 0);
    assert s.pipe[..0] == [];
    hide Has;
  }

  lemma HeldLater(s: State, s': State)
    requires Sound(s) && Effect(s, s') && Proceeds(s, s') && PipeInv(s) && DueInv(s)
    requires (s'.c.closing || s'.thread.Look?) && !Dead(s') && !s'.c.kind.HalfWrite?
    ensures Held(s', s'.due)
  {
    hide Effect, Held, PipeInv;
    if FirstClose(s, s') {
      FirstHeld(s);
      HeldStep(s, s', s'.due);
    } else {
      HeldStep(s, s', s.due);
    }
  }

  lemma SentLater(s: State, s': State)
    requires Sound(s) && Effect(s, s') && Proceeds(s, s') && DueInv(s)
    requires || (s'.thread.Look? && !s'.thread.dw && !s'.c.kind.HalfWrite?)
             || (s'.thread.Force? && s'.thread.why == Quiet) || s'.end == Quiet || s'.end == Flushed
    ensures SentAll(s', s'.due)
  {
    hide Effect, Held, SentAll;
    if s.thread.Look? && s.c.dw == None && !s.c.kind.HalfWrite? {
      assert Bufs(s.c) == [];
      HeldSent(s, s.due);
    }
    if s.thread.Finish? && s.c.closing && !s.c.kind.Invalid? {
      assert Bufs(s.c) == [];
      HeldSent(s, s.due);
    }
    SentStep(s, s', s.due);
  }

  lemma LostLater(s: State, s': State)
    requires Sound(s) && Effect(s, s') && Bufs(s.c) == []
    ensures s'.lost == s.lost
  {
    if SendsFirst(s, s') { SendsFacts(s, s'); }
    if Queues(s, s') { QueuesFacts(s, s'); }
    hide Bufs, Queues, SendsFirst, Counts, Head;
    if Drops(s, s') {
      var gone := Bufs(s.c)[|Bufs(s'.c)|..];
      assert gone == [] && Pkgs(gone) == [];
    }
  }

  lemma GoneLater(s: State, s': State)
    requires Sound(s) && Effect(s, s') && Proceeds(s, s') && DueInv(s)
    ensures !Dead(s') ==> s'.lost == multiset{}
    ensures s'.end == Flushed ==> s'.lost == multiset{}
    ensures s'.refused != multiset{} ==> Refuses(s'.c)
  {
    if s.c.kind.Invalid? || s.thread.Finish? {
      assert Bufs(s.c) == [];
      LostLater(s, s');
    }
    hide Bufs, Held, SentAll, Bag, Head, Asked, Counts, Place, Span, Left;
  }

  lemma ThreadKeepsDue(s: State, s': State)
    requires Sound(s) && Sound(s') && Effect(s, s') && Proceeds(s, s') && PipeInv(s) && DueInv(s)
    ensures DueInv(s')
  {
    if (s'.c.closing || s'.thread.Look?) && !Dead(s') && !s'.c.kind.HalfWrite? { HeldLater(s, s'); }
    if || (s'.thread.Look? && !s'.thread.dw && !s'.c.kind.HalfWrite?)
       || (s'.thread.Force? && s'.thread.why == Quiet) || s'.end == Quiet || s'.end == Flushed { SentLater(s, s'); }
    GoneLater(s, s');
    hide Effect, Held, SentAll, PipeInv;
  }

  // ----- a step of a sender -----

  /** A sender leaves requests in the pipe where they are, and nothing goes. */
  lemma SenderPipe(s: State, t: Tid, n: nat)
    requires t in s.senders
    ensures var s' := DoSender(s, t, s.senders[t], n);
            && (s'.pipe == s.pipe || (|s'.pipe| == |s.pipe| + 1 && s'.pipe[..|s.pipe|] == s.pipe &&
                                      !s'.pipe[|s.pipe|].Close?))
            && s'.refused == s.refused && s'.lost == s.lost && s'.due == s.due && s'.end == s.end
            && s'.thread == s.thread && s'.events == s.events && s'.c == s.c.(dw := s'.c.dw) && s.done <= s'.done
  {
    if s.senders[t].Probe? || s.senders[t].Write? { StillMoves(s, t, n); }
    hide Probed, Written;
  }

  lemma SenderHas(s: State, t: Tid, n: nat, p: Pkg)
    requires Shape(s) && t in s.senders && Has(s, p)
    ensures Has(DoSender(s, t, s.senders[t], n), p)
  {
    var s' := DoSender(s, t, s.senders[t], n);
    SenderPipe(s, t, n);
    SenderMoves(s, t, n);
    assert Past(s.senders[t], 2) ==> s.c.dw == None by { assert SeenOk(s, s.senders[t]); }
    hide DoSender, Shape, Pkgs;
    if s'.c.dw != s.c.dw {
      var b := s.senders[t].b;
      assert Bufs(s'.c) == [b] + Bufs(s.c);
      PkgsJoin([b], Bufs(s.c));
    }
  }

  lemma SenderKeepsClosing(s: State, t: Tid, n: nat)
    requires Shape(s) && PipeInv(s) && DueInv(s) && EventInv(s) && t in s.senders
    ensures var s' := DoSender(s, t, s.senders[t], n);
            PipeInv(s') && DueInv(s') && EventInv(s')
  {
    var s' := DoSender(s, t, s.senders[t], n);
    SenderPipe(s, t, n);
    forall p | Has(s, p) ensures Has(s', p) { SenderHas(s, t, n, p); }
    hide DoSender, Shape, Has, Asked;
    forall k, p | 0 <= k < |s'.pipe| && s'.pipe[k].Close? && p in s'.pipe[k].due
      ensures Has(s', p) || Gone(s', p) || p in Asked(s'.pipe[..k])
    {
      assert k < |s.pipe| && s'.pipe[k] == s.pipe[k] && s'.pipe[..k] == s.pipe[..k];
      assert Covered(s, k);
    }
  }
}
