/** When bytes passed: the times that decide about idle connections are those of the reads
    and writes themselves, read from the clock during the event. */
module Times {
  import opened Calls
  import opened Engine
  import opened Handlers
  import opened Invariant
  import opened Runs
  import opened Steps

  /** The history of one socket has grown between two times: what was read or written
      meanwhile carries a time between them, and without that the old time stays. */
  predicate Timed(e: End, e': End, from: int, until: int) {
    && e.received <= e'.received && e.delivered <= e'.delivered
    && (if e'.received == e.received then e'.lastRead == e.lastRead else from <= e'.lastRead <= until)
    && (if e'.delivered == e.delivered then e'.lastWrite == e.lastWrite else from <= e'.lastWrite <= until)
  }

  /** The clock has not gone back, and every socket's history has grown since it was next
      read. */
  ghost predicate Stamped(w: World, r: World) {
    && w.now <= r.now && NextTime(w) <= NextTime(r) && |w.conns| <= |r.conns|
    && forall k: nat, side: bool | k < |w.conns| ::
         Timed(w.conns[k].Of(side), r.conns[k].Of(side), NextTime(w), r.now)
  }

  lemma StampedTrans(a: World, b: World, c: World)
    requires Stamped(a, b) && Stamped(b, c)
    ensures Stamped(a, c)
  {
    forall k: nat, side: bool | k < |a.conns|
      ensures Timed(a.conns[k].Of(side), c.conns[k].Of(side), NextTime(a), c.now) {
      assert Timed(a.conns[k].Of(side), b.conns[k].Of(side), NextTime(a), b.now);
      assert Timed(b.conns[k].Of(side), c.conns[k].Of(side), NextTime(b), c.now);
    }
  }

  /** No socket's history and no time changes. */
  predicate Unread(w: World, v: World) {
    && v.now == w.now && v.ticks == w.ticks && |v.conns| == |w.conns|
    && forall k | 0 <= k < |w.conns| ::
         v.conns[k].client == w.conns[k].client && v.conns[k].backend == w.conns[k].backend
  }

  lemma UnreadStamped(w: World, v: World)
    requires Unread(w, v)
    ensures Stamped(w, v)
  {
  }

  lemma TickStamped(w: World)
    ensures Stamped(w, Tick(w)) && Tick(w).now == NextTime(w)
  {
  }

  /** Bytes that pass right after the clock has been read. */
  lemma NoteStamped(w: World, fd: int, received: seq<byte>, delivered: seq<byte>)
    ensures Stamped(w, Note(Tick(w), fd, received, delivered))
  {
    var t, r := Tick(w), Note(Tick(w), fd, received, delivered);
    forall k: nat, side: bool | k < |w.conns|
      ensures Timed(w.conns[k].Of(side), r.conns[k].Of(side), NextTime(w), r.now) {
    }
  }

  lemma ModifyStamped(w: World, fd: int)
    ensures Stamped(w, ModifyFd(w, fd))
  {
    UnreadStamped(w, ModifyFd(w, fd));
  }

  lemma SeveredUnread(w: World, fd: int, failure: bool)
    requires fd in w.peers
    ensures Unread(w, Severed(w, fd, failure))
  {
  }

  lemma EjectUnread(w: World, u: World, b: nat)
    requires Unread(w, u)
    ensures Unread(w, MaybeEject(u, b))
  {
  }

  lemma ClosePairUnread(w: World, fd: int, failure: bool)
    ensures Unread(w, ClosePair(w, fd, failure))
  {
    if fd in w.peers {
      CloseIsSever(w, fd, failure);
      SeveredUnread(w, fd, failure);
      EjectUnread(w, Severed(w, fd, failure), w.peers[fd].backendIndex);
    }
  }

  lemma ClosePairStamped(w: World, fd: int, failure: bool)
    ensures Stamped(w, ClosePair(w, fd, failure))
  {
    ClosePairUnread(w, fd, failure);
    UnreadStamped(w, ClosePair(w, fd, failure));
  }

  lemma SentStamped(w: World, fd: int, n: nat)
    requires fd in w.peers && w.peers[fd].sent + n <= |w.peers[fd].outbound|
    ensures Stamped(w, Sent(w, fd, n))
  {
    var noted := Note(Tick(w), fd, [], w.peers[fd].outbound[w.peers[fd].sent..w.peers[fd].sent + n]);
    NoteStamped(w, fd, [], w.peers[fd].outbound[w.peers[fd].sent..w.peers[fd].sent + n]);
    UnreadStamped(noted, Sent(w, fd, n));
    StampedTrans(w, noted, Sent(w, fd, n));
  }

  lemma {:induction false} FlushStamped(w: World, fd: int)
    ensures Stamped(w, Flush(w, fd))
    decreases |w.writeAnswers|
  {
    if fd !in w.peers || w.peers[fd].connecting || w.peers[fd].sent >= |w.peers[fd].outbound| || w.writeAnswers == [] {
      UnreadStamped(w, Flush(w, fd));
    } else {
      var p, v := w.peers[fd], w.(writeAnswers := w.writeAnswers[1..]);
      UnreadStamped(w, v);
      match NextWrite(w, |p.outbound| - p.sent)
      case Wrote(n) =>
        WroteStamped(w, v, fd, n);
      case WriteWouldBlock =>
      case WriteInterrupted =>
        FlushStamped(v, fd);
        StampedTrans(w, v, Flush(v, fd));
      case WriteError =>
        ClosePairStamped(v, fd, p.backendSide);
        StampedTrans(w, v, ClosePair(v, fd, p.backendSide));
    }
  }

  lemma {:induction false} WroteStamped(w: World, v: World, fd: int, n: nat)
    requires WroteCase(w, v, fd, n) && Stamped(w, v)
    ensures Stamped(w, Flush(w, fd))
    decreases |w.writeAnswers|, 0
  {
    var p, r := v.peers[fd], Flush(w, fd);
    AfterWrote(w, v, fd, n);
    if n == 0 {
      ClosePairStamped(v, fd, p.backendSide);
      StampedTrans(w, v, r);
    } else {
      var s := Sent(v, fd, n);
      SentStamped(v, fd, n);
      StampedTrans(w, v, s);
      if p.sent + n == |p.outbound| {
        ModifyStamped(s, p.pairedFd);
      } else {
        FlushStamped(s, fd);
      }
      StampedTrans(w, s, r);
    }
  }

  lemma ForwardStamped(w: World, fd: int, chunk: Chunk)
    requires fd in w.peers && w.peers[fd].pairedFd in w.peers
    ensures Stamped(w, Forward(w, fd, chunk))
  {
    var q, noted, r := w.peers[fd].pairedFd, Note(Tick(w), fd, chunk, []), Received(w, fd, chunk);
    NoteStamped(w, fd, chunk, []);
    UnreadStamped(noted, r);
    StampedTrans(w, noted, r);
    FlushStamped(r, q);
    StampedTrans(w, r, Flush(r, q));
    ModifyStamped(Flush(r, q), fd);
    ModifyStamped(ModifyFd(Flush(r, q), fd), q);
    StampedTrans(w, Flush(r, q), ModifyFd(Flush(r, q), fd));
    StampedTrans(w, ModifyFd(Flush(r, q), fd), Forward(w, fd, chunk));
  }

  lemma {:induction false} ReadStamped(w: World, fd: int)
    ensures Stamped(w, ReadAvailable(w, fd))
    decreases |w.readAnswers|
  {
    if fd !in w.peers || w.readAnswers == [] {
      UnreadStamped(w, ReadAvailable(w, fd));
    } else {
      var p, v, r := w.peers[fd], w.(readAnswers := w.readAnswers[1..]), ReadAvailable(w, fd);
      UnreadStamped(w, v);
      match NextRead(w)
      case Data(chunk) =>
        DataStamped(w, v, fd, chunk);
      case Eof =>
        ClosePairStamped(v, fd, false);
        StampedTrans(w, v, r);
      case ReadWouldBlock =>
      case ReadInterrupted =>
        ReadStamped(v, fd);
        StampedTrans(w, v, r);
      case ReadError =>
        ClosePairStamped(v, fd, p.backendSide);
        StampedTrans(w, v, r);
    }
  }

  lemma {:induction false} DataStamped(w: World, v: World, fd: int, chunk: Chunk)
    requires fd in w.peers && w.readAnswers != [] && w.readAnswers[0] == Data(chunk)
    requires v == w.(readAnswers := w.readAnswers[1..]) && Stamped(w, v)
    ensures Stamped(w, ReadAvailable(w, fd))
    decreases |w.readAnswers|, 0
  {
    var q, r := w.peers[fd].pairedFd, ReadAvailable(w, fd);
    if q !in w.peers {
      TickStamped(v);
      ClosePairStamped(Tick(v), fd, false);
      StampedTrans(v, Tick(v), r);
      StampedTrans(w, v, r);
    } else {
      var f := Forward(v, fd, chunk);
      ForwardStamped(v, fd, chunk);
      StampedTrans(w, v, f);
      if !Throttled(f, q) {
        ReadStamped(f, fd);
        StampedTrans(w, f, r);
      }
    }
  }

  lemma AttachStamped(w: World, client: int, route: Route)
    ensures Stamped(w, AttachBackend(w, client, route))
  {
    var r := AttachBackend(w, client, route);
    if route.Routed? {
      TickStamped(w);
      forall k: nat, side: bool | k < |w.conns|
        ensures Timed(w.conns[k].Of(side), r.conns[k].Of(side), NextTime(w), r.now) {
      }
    } else {
      UnreadStamped(w, r);
    }
  }

  lemma {:induction false} AcceptStamped(w: World)
    ensures Stamped(w, AcceptClients(w))
    decreases |w.acceptAnswers|
  {
    var r := AcceptClients(w);
    if w.acceptAnswers == [] {
      UnreadStamped(w, r);
    } else {
      var v := w.(acceptAnswers := w.acceptAnswers[1..]);
      UnreadStamped(w, v);
      match NextAccept(w)
      case Accepted(client, route) =>
        var a := AttachBackend(v, client, route);
        AttachStamped(v, client, route);
        AcceptStamped(a);
        StampedTrans(w, v, a);
        StampedTrans(w, a, r);
      case AcceptInterrupted =>
        AcceptStamped(v);
        StampedTrans(w, v, r);
      case _ =>
    }
  }

  lemma FinishStamped(w: World, fd: int)
    ensures Stamped(w, FinishConnect(w, fd))
  {
    var r := FinishConnect(w, fd);
    if fd !in w.peers {
      UnreadStamped(w, r);
    } else {
      var v := if w.connectAnswers == [] then w else w.(connectAnswers := w.connectAnswers[1..]);
      UnreadStamped(w, v);
      if !SocketHealthy(w) {
        ClosePairStamped(v, fd, true);
        StampedTrans(w, v, r);
      } else {
        var e := Established(v, fd);
        TickStamped(v);
        UnreadStamped(Tick(v), e);
        StampedTrans(v, Tick(v), e);
        FlushStamped(e, fd);
        ModifyStamped(Flush(e, fd), fd);
        StampedTrans(e, Flush(e, fd), r);
        StampedTrans(v, e, r);
        StampedTrans(w, v, r);
      }
    }
  }

  lemma {:induction false} ReapStamped(w: World, expired: seq<(int, bool)>)
    ensures Stamped(w, ReapAll(w, expired))
    decreases |expired|
  {
    if expired == [] {
      UnreadStamped(w, w);
    } else {
      var v := Record(w, if expired[0].1 then ConnectTimeout else IdleTimeout);
      var one := ReapOne(w, expired[0].0, expired[0].1);
      UnreadStamped(w, v);
      ClosePairStamped(v, expired[0].0, expired[0].1);
      StampedTrans(w, v, one);
      ReapStamped(one, expired[1..]);
      StampedTrans(w, one, ReapAll(w, expired));
    }
  }

  lemma SocketStamped(w: World, ev: Event, order: seq<int>)
    requires ev.fd in w.peers && !ev.hangup && ev.fd != w.cfg.listenerFd && ev.fd != w.cfg.timerFd
    ensures Stamped(w, HandleEvent(w, ev, order))
  {
    UnreadStamped(w, w);
    var a := if w.peers[ev.fd].connecting && ev.output then FinishConnect(w, ev.fd) else w;
    FinishStamped(w, ev.fd);
    var b := if ev.fd in a.peers && ev.input then ReadAvailable(a, ev.fd) else a;
    ReadStamped(a, ev.fd);
    UnreadStamped(a, a);
    StampedTrans(w, a, b);
    FlushStamped(b, ev.fd);
    UnreadStamped(b, b);
    StampedTrans(w, b, HandleEvent(w, ev, order));
  }

  lemma HandleStamped(w: World, ev: Event, order: seq<int>)
    ensures Stamped(w, HandleEvent(w, ev, order))
  {
    var t, r := Tick(w), HandleEvent(w, ev, order);
    if ev.fd == w.cfg.listenerFd {
      AcceptStamped(w);
    } else if ev.fd == w.cfg.timerFd {
      TickStamped(w);
      ReapStamped(t, ExpiredList(t, order));
      StampedTrans(w, t, r);
    } else if ev.fd !in w.peers {
      UnreadStamped(w, r);
    } else if ev.hangup {
      ClosePairStamped(w, ev.fd, w.peers[ev.fd].backendSide);
    } else {
      SocketStamped(w, ev, order);
    }
  }

  lemma {:induction false} RunStamped(run: seq<Loop>, i: nat, j: nat)
    requires IsRun(run) && i <= j < |run|
    ensures Stamped(run[i].w, run[j].w)
    decreases j
  {
    if i == j {
      UnreadStamped(run[i].w, run[j].w);
    } else {
      RunStamped(run, i, j - 1);
      var a, b := run[j - 1], run[j];
      assert Next(a, b);
      if a.pending != [] {
        var order :| Visits(order, a.w.peers.Keys) && b.w == HandleEvent(a.w, a.pending[0], order);
        HandleStamped(a.w, a.pending[0], order);
        StampedTrans(run[i].w, a.w, b.w);
      }
    }
  }

  /** Over any stretch of a run: a socket from which a byte was read, or to which one was
      written, carries a time that the clock showed during the stretch; the other times
      stay what they were. */
  lemma TrafficTimes(run: seq<Loop>, i: nat, j: nat, k: nat, side: bool)
    requires IsRun(run) && i <= j < |run| && k < |run[i].w.conns|
    ensures run[i].w.now <= run[j].w.now && k < |run[j].w.conns|
    ensures Timed(run[i].w.conns[k].Of(side), run[j].w.conns[k].Of(side), NextTime(run[i].w), run[j].w.now)
  {
    RunStamped(run, i, j);
  }
}
