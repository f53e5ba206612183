/** Every handler of the event loop keeps the invariant, whatever the answers. */
module Handlers {
  import opened Calls
  import opened Engine
  import opened Invariant
  import opened Steps

  lemma {:induction false} FlushKeeps(w: World, fd: int, except: set<int>)
    requires InvExcept(w, except)
    ensures InvExcept(Flush(w, fd), except) && Evolves(w, Flush(w, fd), {})
    decreases |w.writeAnswers|
  {
    if fd !in w.peers || w.peers[fd].connecting || w.peers[fd].sent >= |w.peers[fd].outbound| || w.writeAnswers == [] {
      EvolvesRefl(w, {});
      if fd in w.peers && w.peers[fd].sent >= |w.peers[fd].outbound| {
        EmptiedIsSame(w, fd, except);
      }
    } else {
      var v := w.(writeAnswers := w.writeAnswers[1..]);
      AdvanceKeeps(w, v, except);
      match NextWrite(w, |w.peers[fd].outbound| - w.peers[fd].sent)
      case Wrote(n) =>
        WroteKeeps(w, v, fd, n, except);
      case WriteInterrupted =>
        FlushKeeps(v, fd, except);
        EvolvesTrans(w, v, Flush(w, fd), {});
      case WriteError =>
        ClosePairKeeps(v, fd, w.peers[fd].backendSide, except);
        EvolvesTrans(w, v, Flush(w, fd), {});
      case WriteWouldBlock =>
    }
  }

  /** A write that returned a count: nothing, everything that was left, or a part. */
  lemma {:induction false} WroteKeeps(w: World, v: World, fd: int, n: nat, except: set<int>)
    requires WroteCase(w, v, fd, n) && InvExcept(v, except) && Evolves(w, v, {})
    ensures InvExcept(Flush(w, fd), except) && Evolves(w, Flush(w, fd), {})
    decreases |w.writeAnswers|, 0
  {
    if n == 0 {
      WroteNothingKeeps(w, v, fd, except);
    } else if v.peers[fd].sent + n == |v.peers[fd].outbound| {
      WroteAllKeeps(w, v, fd, n, except);
    } else {
      var s := Sent(v, fd, n);
      SentKeeps(v, fd, n, except);
      FlushKeeps(s, fd, except);
      WrotePartEvolves(w, v, fd, n, except);
    }
  }

  /** What is known when the kernel has answered a write with a count. */
  predicate WroteCase(w: World, v: World, fd: int, n: nat) {
    && fd in v.peers && !v.peers[fd].connecting && v.peers[fd].sent < |v.peers[fd].outbound|
    && w.writeAnswers != [] && v == w.(writeAnswers := w.writeAnswers[1..])
    && NextWrite(w, |v.peers[fd].outbound| - v.peers[fd].sent) == Wrote(n)
  }

  /** How the write loop goes on after such an answer. */
  lemma AfterWrote(w: World, v: World, fd: int, n: nat)
    requires WroteCase(w, v, fd, n)
    ensures v.peers[fd].sent + n <= |v.peers[fd].outbound|
    ensures var p := v.peers[fd];
            Flush(w, fd) ==
            if n == 0 then ClosePair(v, fd, p.backendSide)
            else if p.sent + n == |p.outbound| then ModifyFd(Sent(v, fd, n), p.pairedFd)
            else Flush(Sent(v, fd, n), fd)
  {
  }

  lemma WroteNothingKeeps(w: World, v: World, fd: int, except: set<int>)
    requires WroteCase(w, v, fd, 0) && InvExcept(v, except) && Evolves(w, v, {})
    ensures InvExcept(Flush(w, fd), except) && Evolves(w, Flush(w, fd), {})
  {
    var r := ClosePair(v, fd, v.peers[fd].backendSide);
    assert Flush(w, fd) == r;
    ClosePairKeeps(v, fd, v.peers[fd].backendSide, except);
    EvolvesTrans(w, v, r, {});
  }

  lemma WroteAllKeeps(w: World, v: World, fd: int, n: nat, except: set<int>)
    requires WroteCase(w, v, fd, n) && n > 0 && InvExcept(v, except) && Evolves(w, v, {})
    requires v.peers[fd].sent + n == |v.peers[fd].outbound|
    ensures InvExcept(Flush(w, fd), except) && Evolves(w, Flush(w, fd), {})
  {
    var r := ModifyFd(Sent(v, fd, n), v.peers[fd].pairedFd);
    assert Flush(w, fd) == r;
    SentWholeKeeps(v, fd, n, except);
    EvolvesTrans(w, v, r, {});
  }

  lemma WrotePartEvolves(w: World, v: World, fd: int, n: nat, except: set<int>)
    requires WroteCase(w, v, fd, n) && 0 < n < |v.peers[fd].outbound| - v.peers[fd].sent
    requires InvExcept(v, except) && Evolves(w, v, {})
    requires InvExcept(Sent(v, fd, n), except) && Evolves(v, Sent(v, fd, n), {})
    requires InvExcept(Flush(Sent(v, fd, n), fd), except) && Evolves(Sent(v, fd, n), Flush(Sent(v, fd, n), fd), {})
    ensures InvExcept(Flush(w, fd), except) && Evolves(w, Flush(w, fd), {})
  {
    var s := Sent(v, fd, n);
    var r := Flush(s, fd);
    assert Flush(w, fd) == r;
    EvolvesTrans(v, s, r, {});
    EvolvesTrans(w, v, r, {});
  }

  /** When the buffer goes out whole, the partner's interest is refreshed. */
  lemma SentWholeKeeps(w: World, fd: int, n: nat, except: set<int>)
    requires InvExcept(w, except) && fd in w.peers && !w.peers[fd].connecting
    requires n > 0 && w.peers[fd].sent + n == |w.peers[fd].outbound|
    ensures var w' := ModifyFd(Sent(w, fd, n), w.peers[fd].pairedFd);
            InvExcept(w', except) && Evolves(w, w', {})
  {
    var q := w.peers[fd].pairedFd;
    var s := Sent(w, fd, n);
    SentKeeps(w, fd, n, except);
    ModifyKeeps(s, q, except + {q});
    Loosen(ModifyFd(s, q), except + {q} - {q}, except);
    EvolvesTrans(w, s, ModifyFd(s, q), {});
  }

  lemma ForwardKeeps(w: World, fd: int, chunk: Chunk)
    requires Inv(w) && fd in w.peers && w.peers[fd].pairedFd in w.peers
    requires |w.peers[w.peers[fd].pairedFd].outbound| < HIGH_WATERMARK
    ensures Inv(Forward(w, fd, chunk)) && Evolves(w, Forward(w, fd, chunk), {fd})
  {
    var q := w.peers[fd].pairedFd;
    var r := Received(w, fd, chunk);
    ReceivedKeeps(w, fd, chunk, {});
    Loosen(r, {} + {fd, q}, {fd, q});
    var f := Flush(r, q);
    FlushKeeps(r, q, {fd, q});
    var m := ModifyFd(f, fd);
    ModifyKeeps(f, fd, {fd, q});
    Loosen(m, {fd, q} - {fd}, {q});
    ModifyKeeps(m, q, {q});
    EvolvesTrans(f, m, Forward(w, fd, chunk), {});
    EvolvesTrans(r, f, Forward(w, fd, chunk), {});
    EvolvesMore(r, Forward(w, fd, chunk), {}, {fd});
    EvolvesTrans(w, r, Forward(w, fd, chunk), {fd});
  }

  /** The partner of a descriptor that is about to be read has room for a chunk. */
  predicate Roomy(w: World, fd: int) {
    fd in w.peers && w.peers[fd].pairedFd in w.peers ==> |w.peers[w.peers[fd].pairedFd].outbound| < HIGH_WATERMARK
  }

  lemma PairSurvives(w: World, w': World, fd: int, except: set<int>, from: set<int>)
    requires InvExcept(w, except) && Inv(w') && Evolves(w, w', from) && fd in w.peers && fd in w'.peers
    requires |w'.conns| == |w.conns|
    ensures w'.owner[fd] == w.owner[fd] && w'.peers[fd].backendSide == w.peers[fd].backendSide
    ensures w'.peers[fd].pairedFd == w.peers[fd].pairedFd && w'.peers[fd].pairedFd in w'.peers
  {
    var k, side := OwnerOf(w', fd, {});
    assert ConnEvolves(w.conns[k], w'.conns[k], from);
    assert SideOk(w, k, side);
  }

  lemma {:induction false} ReadKeeps(w: World, fd: int)
    requires Inv(w) && Roomy(w, fd)
    ensures Inv(ReadAvailable(w, fd)) && Evolves(w, ReadAvailable(w, fd), {fd})
    decreases |w.readAnswers|
  {
    EvolvesRefl(w, {fd});
    if fd !in w.peers || w.readAnswers == [] {
    } else {
      var p, v := w.peers[fd], w.(readAnswers := w.readAnswers[1..]);
      AdvanceKeeps(w, v, {});
      EvolvesMore(w, v, {}, {fd});
      match NextRead(w)
      case Data(chunk) =>
        DataKeeps(w, v, fd, chunk);
      case Eof =>
        ReadClosedKeeps(w, v, fd, false);
      case ReadWouldBlock =>
      case ReadInterrupted =>
        ReadKeeps(v, fd);
        EvolvesTrans(w, v, ReadAvailable(w, fd), {fd});
      case ReadError =>
        ReadClosedKeeps(w, v, fd, p.backendSide);
    }
  }

  /** A read that ends the connection. */
  lemma ReadClosedKeeps(w: World, v: World, fd: int, failure: bool)
    requires Inv(v) && Evolves(w, v, {fd}) && fd in v.peers
    ensures Inv(ClosePair(v, fd, failure)) && Evolves(w, ClosePair(v, fd, failure), {fd})
  {
    var r := ClosePair(v, fd, failure);
    ClosePairKeeps(v, fd, failure, {});
    EvolvesMore(v, r, {}, {fd});
    EvolvesTrans(w, v, r, {fd});
  }

  /** A read that returned data. */
  lemma {:induction false} DataKeeps(w: World, v: World, fd: int, chunk: Chunk)
    requires Inv(v) && Roomy(v, fd) && fd in v.peers && Evolves(w, v, {fd})
    requires w.readAnswers != [] && v == w.(readAnswers := w.readAnswers[1..]) && w.readAnswers[0] == Data(chunk)
    ensures Inv(ReadAvailable(w, fd)) && Evolves(w, ReadAvailable(w, fd), {fd})
    decreases |w.readAnswers|, 0
  {
    var k, side := OwnerOf(v, fd, {});
    var q, f := v.peers[fd].pairedFd, Forward(v, fd, chunk);
    ForwardKeeps(v, fd, chunk);
    EvolvesTrans(w, v, f, {fd});
    if !Throttled(f, q) {
      if fd in f.peers {
        PairSurvives(v, f, fd, {}, {fd});
      }
      ReadKeeps(f, fd);
      EvolvesTrans(w, f, ReadAvailable(f, fd), {fd});
    }
  }

  lemma FinishConnectKeeps(w: World, fd: int)
    requires Inv(w) && (fd in w.peers ==> w.peers[fd].connecting)
    ensures Inv(FinishConnect(w, fd)) && Evolves(w, FinishConnect(w, fd), {})
  {
    EvolvesRefl(w, {});
    if fd in w.peers {
      var v := if w.connectAnswers == [] then w else w.(connectAnswers := w.connectAnswers[1..]);
      AdvanceKeeps(w, v, {});
      var r := FinishConnect(w, fd);
      if !SocketHealthy(w) {
        ClosePairKeeps(v, fd, true, {});
        EvolvesTrans(w, v, r, {});
      } else {
        var e := Established(v, fd);
        var f := Flush(e, fd);
        EstablishedKeeps(v, fd);
        FlushKeeps(e, fd, {fd});
        ModifyKeeps(f, fd, {fd});
        assert {fd} - {fd} == {};
        EvolvesTrans(w, v, e, {});
        EvolvesTrans(w, e, f, {});
        EvolvesTrans(w, f, r, {});
      }
    }
  }

  /** A backend that refuses at once: a failure, the ejection test, and the client closed. */
  lemma RefusedKeeps(w: World, client: int, b: nat)
    requires Inv(w) && Fresh(w, client) && b < w.cfg.backendCount
    ensures var a := AttachBackend(w, client, Refused(b)); Inv(a) && Evolves(w, a, {})
  {
    var r := Record(w.(refused := w.refused + [b]), Failure(b));
    RefuseKeeps(w, b);
    var e := MaybeEject(r, b);
    EjectKeeps(r, b, {});
    assert e.peers == w.peers && e.cfg == w.cfg;
    TurnAwayKeeps(e, client);
    EvolvesTrans(w, r, e, {});
    EvolvesTrans(w, e, TurnAway(e, client), {});
  }

  lemma AttachKeeps(w: World, client: int, route: Route)
    requires Inv(w) && Possible(w, Accepted(client, route))
    ensures Inv(AttachBackend(w, client, route)) && Evolves(w, AttachBackend(w, client, route), {})
  {
    match route
    case NoBackend => TurnAwayKeeps(w, client);
    case Refused(b) => RefusedKeeps(w, client, b);
    case Routed(b, fd) => JoinKeeps(w, client, fd, b);
  }

  lemma {:induction false} AcceptKeeps(w: World)
    requires Inv(w)
    ensures Inv(AcceptClients(w)) && Evolves(w, AcceptClients(w), {})
    decreases |w.acceptAnswers|
  {
    EvolvesRefl(w, {});
    if w.acceptAnswers == [] {
    } else {
      var v := w.(acceptAnswers := w.acceptAnswers[1..]);
      AdvanceKeeps(w, v, {});
      match NextAccept(w)
      case Accepted(client, route) =>
        var a := AttachBackend(v, client, route);
        AttachKeeps(v, client, route);
        AcceptKeeps(a);
        EvolvesTrans(w, v, a, {});
        EvolvesTrans(w, a, AcceptClients(w), {});
      case AcceptInterrupted =>
        AcceptKeeps(v);
        EvolvesTrans(w, v, AcceptClients(w), {});
      case _ =>
    }
  }

  lemma ReapOneKeeps(w: World, fd: int, connectTimeout: bool)
    requires Inv(w)
    ensures Inv(ReapOne(w, fd, connectTimeout)) && Evolves(w, ReapOne(w, fd, connectTimeout), {})
  {
    var r := Record(w, if connectTimeout then ConnectTimeout else IdleTimeout);
    RecordKeeps(w, if connectTimeout then ConnectTimeout else IdleTimeout, {});
    if fd in w.peers {
      ClosePairKeeps(r, fd, connectTimeout, {});
      EvolvesTrans(w, r, ReapOne(w, fd, connectTimeout), {});
    }
  }

  lemma {:induction false} ReapAllKeeps(w: World, expired: seq<(int, bool)>)
    requires Inv(w)
    ensures Inv(ReapAll(w, expired)) && Evolves(w, ReapAll(w, expired), {})
    decreases |expired|
  {
    EvolvesRefl(w, {});
    if expired == [] {
    } else {
      var r := ReapOne(w, expired[0].0, expired[0].1);
      ReapOneKeeps(w, expired[0].0, expired[0].1);
      ReapAllKeeps(r, expired[1..]);
      EvolvesTrans(w, r, ReapAll(w, expired), {});
    }
  }

  lemma ReapKeeps(w: World, order: seq<int>)
    requires Inv(w)
    ensures Inv(ReapTimeouts(w, order)) && Evolves(w, ReapTimeouts(w, order), {})
  {
    var t := Tick(w);
    AdvanceKeeps(w, t, {});
    ReapAllKeeps(t, ExpiredList(t, order));
    EvolvesTrans(w, t, ReapTimeouts(w, order), {});
  }

  lemma {:induction false} CloseAllKeeps(w: World, order: seq<int>)
    requires Inv(w)
    ensures Inv(CloseAll(w, order)) && Evolves(w, CloseAll(w, order), {})
    decreases |order|
  {
    EvolvesRefl(w, {});
    if order == [] {
    } else {
      var c := ClosePair(w, order[0], false);
      if order[0] in w.peers {
        ClosePairKeeps(w, order[0], false, {});
      }
      CloseAllKeeps(c, order[1..]);
      EvolvesTrans(w, c, CloseAll(w, order), {});
    }
  }

  /** The descriptors an event may read from. */
  function Source(ev: Event): set<int> {
    if ev.input then {ev.fd} else {}
  }

  lemma HandleKeeps(w: World, ev: Event, order: seq<int>)
    requires Inv(w) && (ev.input ==> Roomy(w, ev.fd))
    ensures Inv(HandleEvent(w, ev, order)) && Evolves(w, HandleEvent(w, ev, order), Source(ev))
  {
    var r := HandleEvent(w, ev, order);
    if ev.fd == w.cfg.listenerFd {
      AcceptKeeps(w);
      EvolvesMore(w, r, {}, Source(ev));
    } else if ev.fd == w.cfg.timerFd {
      ReapKeeps(w, order);
      EvolvesMore(w, r, {}, Source(ev));
    } else if ev.fd !in w.peers {
      EvolvesRefl(w, Source(ev));
    } else if ev.hangup {
      ClosePairKeeps(w, ev.fd, w.peers[ev.fd].backendSide, {});
      EvolvesMore(w, r, {}, Source(ev));
    } else {
      SocketEventKeeps(w, ev, order);
    }
  }

  lemma RoomyAfterConnect(w: World, fd: int)
    requires Inv(w) && Roomy(w, fd) && fd in w.peers && w.peers[fd].connecting
    ensures Roomy(FinishConnect(w, fd), fd)
  {
    FinishConnectKeeps(w, fd);
    var a := FinishConnect(w, fd);
    if fd in a.peers {
      assert |a.conns| == |w.conns|;
      PairSurvives(w, a, fd, {}, {});
      var k, side := OwnerOf(a, fd, {});
      assert BufferEvolves(w, a, k, !side, {});
    }
  }

  lemma SocketEventKeeps(w: World, ev: Event, order: seq<int>)
    requires Inv(w) && (ev.input ==> Roomy(w, ev.fd)) && ev.fd in w.peers && !ev.hangup
    ensures Inv(HandleEvent(w, ev, order)) && Evolves(w, HandleEvent(w, ev, order), Source(ev))
  {
    var r := HandleEvent(w, ev, order);
    var a := if w.peers[ev.fd].connecting && ev.output then FinishConnect(w, ev.fd) else w;
    EvolvesRefl(w, Source(ev));
    if w.peers[ev.fd].connecting && ev.output {
      FinishConnectKeeps(w, ev.fd);
      EvolvesMore(w, a, {}, Source(ev));
      if ev.input { RoomyAfterConnect(w, ev.fd); }
    }
    var b := if ev.fd in a.peers && ev.input then ReadAvailable(a, ev.fd) else a;
    if ev.fd in a.peers && ev.input {
      ReadKeeps(a, ev.fd);
      EvolvesTrans(w, a, b, Source(ev));
    }
    if ev.fd in b.peers && ev.output {
      FlushKeeps(b, ev.fd, {});
      EvolvesMore(b, r, {}, Source(ev));
      EvolvesTrans(w, b, r, Source(ev));
    }
  }
}
