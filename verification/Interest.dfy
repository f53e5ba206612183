/** How long a socket stays registered for output. */
module Interests {
  import opened Engine
  import opened Handlers
  import opened Invariant
  import opened Progress
  import opened Steps
  import opened Verdicts

  /** The socket has something to wait for. */
  predicate Needed(w: World, x: int) {
    x in w.peers && (w.peers[x].connecting || w.peers[x].sent < |w.peers[x].outbound|)
  }

  predicate Registered(w: World, x: int) {
    x in w.peers && x in w.armed && w.armed[x].output
  }

  predicate Exact(w: World, x: int) {
    x in w.peers && x in w.armed && (w.armed[x].output <==> Needed(w, x))
  }

  predicate Kept(w: World, r: World, x: int) {
    && x in w.peers && x in r.peers && r.peers[x] == w.peers[x]
    && x in w.armed && x in r.armed && r.armed[x] == w.armed[x]
  }

  /** The socket is closed, or registered for output exactly if it needs that, or nothing
      about it has changed. */
  predicate Settled(w: World, r: World, x: int) {
    x in r.peers ==> x in w.peers && (Exact(r, x) || Kept(w, r, x))
  }

  lemma SettledTrans(a: World, b: World, c: World, x: int)
    requires Settled(a, b, x) && Settled(b, c, x)
    ensures Settled(a, c, x)
  {
  }

  // ----- Writing -----

  /** Writing to `x` leaves its own registration alone, and settles its partner's. */
  predicate Flushed(w: World, r: World, x: int, y: int) {
    && (x in r.peers ==>
          x in w.peers && (x in w.armed ==> x in r.armed && r.armed[x] == w.armed[x]))
    && (y in r.peers ==>
          y in w.peers && r.peers[y] == w.peers[y] &&
          (y in w.armed ==> y in r.armed && (Exact(r, y) || r.armed[y] == w.armed[y])))
  }

  lemma FlushedTrans(a: World, b: World, c: World, x: int, y: int)
    requires Flushed(a, b, x, y) && Flushed(b, c, x, y)
    ensures Flushed(a, c, x, y)
  {
  }

  lemma SeveredFlushed(w: World, x: int, y: int, failure: bool)
    requires x in w.peers
    ensures Flushed(w, Severed(w, x, failure), x, y)
  {
  }

  lemma CloseFlushed(w: World, x: int, y: int, failure: bool)
    ensures Flushed(w, ClosePair(w, x, failure), x, y)
  {
    if x in w.peers {
      SeveredFlushed(w, x, y, failure);
      CloseIsSever(w, x, failure);
    }
  }

  lemma SentFlushed(w: World, x: int, y: int, n: nat)
    requires x != y && x in w.peers && w.peers[x].sent + n <= |w.peers[x].outbound|
    ensures Flushed(w, Sent(w, x, n), x, y)
  {
  }

  lemma {:induction false} FlushSettles(w: World, x: int, y: int)
    requires x != y && (x in w.peers ==> w.peers[x].pairedFd == y)
    ensures Flushed(w, Flush(w, x), x, y)
    decreases |w.writeAnswers|
  {
    if x !in w.peers || w.peers[x].connecting || w.peers[x].sent >= |w.peers[x].outbound| || w.writeAnswers == [] {
    } else {
      var p, v := w.peers[x], w.(writeAnswers := w.writeAnswers[1..]);
      match NextWrite(w, |p.outbound| - p.sent)
      case Wrote(n) =>
        WroteSettles(w, v, x, y, n);
      case WriteWouldBlock =>
      case WriteInterrupted =>
        FlushSettles(v, x, y);
      case WriteError =>
        CloseFlushed(v, x, y, p.backendSide);
    }
  }

  lemma {:induction false} WroteSettles(w: World, v: World, x: int, y: int, n: nat)
    requires x != y && WroteCase(w, v, x, n) && v.peers[x].pairedFd == y
    ensures Flushed(w, Flush(w, x), x, y)
    decreases |w.writeAnswers|, 0
  {
    var p, r := v.peers[x], Flush(w, x);
    AfterWrote(w, v, x, n);
    if n == 0 {
      CloseFlushed(v, x, y, p.backendSide);
    } else {
      var s := Sent(v, x, n);
      SentFlushed(v, x, y, n);
      if p.sent + n < |p.outbound| {
        FlushSettles(s, x, y);
      }
      FlushedTrans(v, s, r, x, y);
    }
  }

  // ----- Reading -----

  /** A round of the read loop leaves both sockets exact. */
  lemma ForwardExact(w: World, x: int, chunk: Chunk)
    requires x in w.peers && w.peers[x].pairedFd in w.peers && w.peers[x].pairedFd != x
    ensures var f, y := Forward(w, x, chunk), w.peers[x].pairedFd;
            (x in f.peers ==> Exact(f, x)) && (y in f.peers ==> Exact(f, y))
  {
  }

  lemma {:induction false} ReadSettles(w: World, x: int, y: int)
    requires Inv(w) && Roomy(w, x) && (x in w.peers ==> w.peers[x].pairedFd == y)
    ensures Settled(w, ReadAvailable(w, x), x) && Settled(w, ReadAvailable(w, x), y)
    decreases |w.readAnswers|
  {
    if x !in w.peers || w.readAnswers == [] {
    } else {
      var k, side := OwnerOf(w, x, {});
      var p, v, r := w.peers[x], w.(readAnswers := w.readAnswers[1..]), ReadAvailable(w, x);
      AdvanceKeeps(w, v, {});
      match NextRead(w)
      case Data(chunk) =>
        DataSettles(w, v, x, y, chunk);
      case Eof =>
        ClosedSettled(v, x, y, false);
      case ReadWouldBlock =>
      case ReadInterrupted =>
        ReadSettles(v, x, y);
      case ReadError =>
        ClosedSettled(v, x, y, p.backendSide);
    }
  }

  lemma ClosedSettled(w: World, x: int, y: int, failure: bool)
    requires Inv(w) && x in w.peers && w.peers[x].pairedFd == y
    ensures var r := ClosePair(w, x, failure); x !in r.peers && y !in r.peers
  {
    var k, side := OwnerOf(w, x, {});
    CloseIsSever(w, x, failure);
    SeveredMaps(w, x, failure);
  }

  lemma {:induction false} DataSettles(w: World, v: World, x: int, y: int, chunk: Chunk)
    requires Inv(v) && Roomy(v, x) && x in v.peers && v.peers[x].pairedFd == y
    requires w.readAnswers != [] && v == w.(readAnswers := w.readAnswers[1..]) && w.readAnswers[0] == Data(chunk)
    ensures Settled(w, ReadAvailable(w, x), x) && Settled(w, ReadAvailable(w, x), y)
    decreases |w.readAnswers|, 0
  {
    var k, side := OwnerOf(v, x, {});
    var f := Forward(v, x, chunk);
    ForwardKeeps(v, x, chunk);
    ForwardExact(v, x, chunk);
    ForwardRegistered(v, f, x, y);
    if !Throttled(f, y) {
      if x in f.peers { PairSurvives(v, f, x, {}, {x}); }
      ReadSettles(f, x, y);
      SettledTrans(v, f, ReadAvailable(w, x), x);
      SettledTrans(v, f, ReadAvailable(w, x), y);
    }
  }

  lemma ForwardRegistered(v: World, f: World, x: int, y: int)
    requires x in v.peers && y in v.peers
    requires (x in f.peers ==> Exact(f, x)) && (y in f.peers ==> Exact(f, y))
    ensures Settled(v, f, x) && Settled(v, f, y)
  {
  }

  // ----- A whole event -----

  lemma FinishSettles(w: World, x: int, y: int)
    requires Inv(w) && x in w.peers && w.peers[x].connecting && w.peers[x].pairedFd == y
    ensures Settled(w, FinishConnect(w, x), x) && Settled(w, FinishConnect(w, x), y)
  {
    var k, side := OwnerOf(w, x, {});
    var v := if w.connectAnswers == [] then w else w.(connectAnswers := w.connectAnswers[1..]);
    AdvanceKeeps(w, v, {});
    if !SocketHealthy(w) {
      ClosedSettled(v, x, y, true);
    } else {
      var e := Established(v, x);
      FlushSettles(e, x, y);
      ModifiedSettles(w, e, Flush(e, x), x, y);
    }
  }

  lemma ModifiedSettles(w: World, e: World, f: World, x: int, y: int)
    requires x != y && x in w.peers && y in w.peers && w.armed.Keys == w.peers.Keys && Flushed(e, f, x, y)
    requires e.armed == w.armed && e.peers.Keys == w.peers.Keys && e.peers[y] == w.peers[y]
    ensures Settled(w, ModifyFd(f, x), x) && Settled(w, ModifyFd(f, x), y)
  {
  }

  lemma SettledRefl(w: World, x: int)
    requires Sockets(w)
    ensures Settled(w, w, x)
  {
  }

  /** Without reads of its partner, a socket never comes to need output. */
  lemma NeededBefore(w: World, b: World, x: int)
    requires Inv(w) && Inv(b) && Evolves(w, b, {x}) && |b.conns| == |w.conns| && Needed(b, x)
    ensures Registered(w, x)
  {
    var k, side := OwnerOf(b, x, {});
    assert BufferEvolves(w, b, k, side, {x});
    assert ConnEvolves(w.conns[k], b.conns[k], {x});
    assert SideOk(w, k, side) && SideOk(w, k, !side) && ArmOk(w, k, side);
    assert b.conns[k].Of(!side).fd != x;
  }

  /** The first two stages of a socket event. */
  lemma StagesSettle(w: World, ev: Event, y: int)
    requires Inv(w) && OnSocket(w, ev) && (ev.input ==> Roomy(w, ev.fd)) && w.peers[ev.fd].pairedFd == y
    ensures var b := ReadOut(Connected(w, ev), ev);
            && Inv(b) && Evolves(w, b, {ev.fd}) && |b.conns| == |w.conns|
            && (ev.fd in b.peers ==> b.peers[ev.fd].pairedFd == y)
            && Settled(w, b, ev.fd) && Settled(w, b, y)
  {
    var x, a := ev.fd, Connected(w, ev);
    var b := ReadOut(a, ev);
    ConnectedStage(w, ev);
    ReadStage(a, ev);
    EvolvesMore(w, a, {}, {x});
    EvolvesMore(a, b, Source(ev), {x});
    EvolvesTrans(w, a, b, {x});
    RegisteredWhileAlive(w, a, x, {x});
    if w.peers[x].connecting && ev.output {
      FinishSettles(w, x, y);
    } else {
      SettledRefl(w, x);
      SettledRefl(w, y);
    }
    RegisteredWhileAlive(w, b, x, {x});
    if x in a.peers && ev.input {
      ReadSettles(a, x, y);
    } else {
      SettledRefl(a, x);
      SettledRefl(a, y);
    }
    SettledTrans(w, a, b, x);
    SettledTrans(w, a, b, y);
  }

  /** What an event on `x` leaves of the registrations of its pair. */
  lemma SocketRegistered(w: World, ev: Event, order: seq<int>, y: int)
    requires Inv(w) && OnSocket(w, ev) && (ev.input ==> Roomy(w, ev.fd)) && w.peers[ev.fd].pairedFd == y
    ensures var r := HandleEvent(w, ev, order);
            && Settled(w, r, y)
            && (!ev.output ==> Settled(w, r, ev.fd))
            && (ev.output && Registered(r, ev.fd) ==> Registered(w, ev.fd))
  {
    var x, b := ev.fd, ReadOut(Connected(w, ev), ev);
    var k, side := OwnerOf(w, x, {});
    Stages(w, ev, order);
    StagesSettle(w, ev, y);
    if x in b.peers && ev.output {
      FlushSettles(b, x, y);
      LastStage(w, b, Flush(b, x), x, y);
    }
  }

  lemma LastStage(w: World, b: World, r: World, x: int, y: int)
    requires Inv(w) && Inv(b) && Evolves(w, b, {x}) && |b.conns| == |w.conns|
    requires Settled(w, b, x) && Settled(w, b, y) && Flushed(b, r, x, y)
    ensures Settled(w, r, y) && (Registered(r, x) ==> Registered(w, x))
  {
    if y in r.peers && !Exact(r, y) {
      assert Kept(b, r, y);
    }
    if Registered(r, x) && Exact(b, x) {
      NeededBefore(w, b, x);
    }
  }
}
