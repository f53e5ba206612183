/** The worker in the middle of a handler.

    A handler may make several calls on the shared runtime state, and other threads may run
    between any two of them.  Whatever a worker has called so far, there is a state of the
    worker that has made exactly those calls: one in which its books are right and its
    connections are linked, though the interest of some descriptors may be out of date. */
module Moments {
  import opened Calls
  import opened Engine
  import opened Handlers
  import opened Invariant
  import opened Runs
  import opened Steps

  /** A state `v` that has grown from `a` by the first `n` calls of a log. */
  ghost predicate Moment(a: World, v: World, log: seq<Call>, n: nat, from: set<int>) {
    Sound(v) && n <= |log| && v.calls == log[..n] && Evolves(a, v, from)
  }

  ghost predicate HasMoment(a: World, log: seq<Call>, n: nat, from: set<int>) {
    exists v :: Moment(a, v, log, n, from)
  }

  /** Between `a` and `b` there is such a state after every call. */
  ghost predicate Traced(a: World, b: World, from: set<int>) {
    && a.calls <= b.calls && Sound(b) && Evolves(a, b, from)
    && forall n: nat | |a.calls| <= n <= |b.calls| :: HasMoment(a, b.calls, n, from)
  }

  /** At most one call. */
  lemma OneCall(a: World, b: World, from: set<int>)
    requires Sound(a) && Sound(b) && Evolves(a, b, from) && |b.calls| <= |a.calls| + 1
    ensures Traced(a, b, from)
  {
    EvolvesRefl(a, from);
    forall n: nat | |a.calls| <= n <= |b.calls| ensures HasMoment(a, b.calls, n, from) {
      if n == |b.calls| {
        assert Moment(a, b, b.calls, n, from);
      } else {
        assert Moment(a, a, b.calls, n, from);
      }
    }
  }

  lemma TracedTrans(a: World, b: World, c: World, from: set<int>)
    requires Traced(a, b, from) && Traced(b, c, from)
    ensures Traced(a, c, from)
  {
    EvolvesTrans(a, b, c, from);
    forall n: nat | |a.calls| <= n <= |c.calls| ensures HasMoment(a, c.calls, n, from) {
      if n <= |b.calls| {
        assert HasMoment(a, b.calls, n, from);
        var v :| Moment(a, v, b.calls, n, from);
        assert Moment(a, v, c.calls, n, from);
      } else {
        assert HasMoment(b, c.calls, n, from);
        var v :| Moment(b, v, c.calls, n, from);
        EvolvesTrans(a, b, v, from);
        assert Moment(a, v, c.calls, n, from);
      }
    }
  }

  lemma TracedMore(a: World, b: World, from: set<int>, more: set<int>)
    requires Traced(a, b, from) && from <= more
    ensures Traced(a, b, more)
  {
    EvolvesMore(a, b, from, more);
    forall n: nat | |a.calls| <= n <= |b.calls| ensures HasMoment(a, b.calls, n, more) {
      assert HasMoment(a, b.calls, n, from);
      var v :| Moment(a, v, b.calls, n, from);
      EvolvesMore(a, v, from, more);
      assert Moment(a, v, b.calls, n, more);
    }
  }

  lemma TracedRefl(a: World, from: set<int>)
    requires Sound(a)
    ensures Traced(a, a, from)
  {
    EvolvesRefl(a, from);
    OneCall(a, a, from);
  }

  lemma SoundWhatever(w: World, except: set<int>)
    requires InvExcept(w, except)
    ensures Sound(w)
  {
    forall k: nat, side: bool | k < |w.conns| && w.conns[k].fate.Alive? ensures w.conns[k].Of(side).fd in w.peers {
      assert SideOk(w, k, side);
    }
  }

  /** Two calls, with a state known in between. */
  lemma TwoCalls(a: World, mid: World, b: World, from: set<int>)
    requires Sound(a) && Sound(mid) && Sound(b) && Evolves(a, mid, from) && Evolves(a, b, from)
    requires |mid.calls| == |a.calls| + 1 && |b.calls| == |mid.calls| + 1 && mid.calls <= b.calls
    ensures Traced(a, b, from)
  {
    EvolvesRefl(a, from);
    forall n: nat | |a.calls| <= n <= |b.calls| ensures HasMoment(a, b.calls, n, from) {
      if n == |b.calls| {
        assert Moment(a, b, b.calls, n, from);
      } else if n == |mid.calls| {
        assert Moment(a, mid, b.calls, n, from);
      } else {
        assert Moment(a, a, b.calls, n, from);
      }
    }
  }

  lemma SeveredCalls(w: World, fd: int)
    requires fd in w.peers
    ensures var b := w.peers[fd].backendIndex;
            && Severed(w, fd, false).calls == w.calls + [Close(b)]
            && Severed(w, fd, true).calls == w.calls + [Close(b)] + [Failure(b)]
  {
  }

  /** A close and the failure that may follow it: in between, the connection has ended and
      is not yet held to have failed. */
  lemma SeveredTraced(w: World, fd: int, backendFailure: bool, except: set<int>)
    requires InvExcept(w, except) && fd in w.peers
    ensures Traced(w, Severed(w, fd, backendFailure), {})
  {
    var mid, u := Severed(w, fd, false), Severed(w, fd, backendFailure);
    SeveredKeeps(w, fd, false, except);
    SeveredKeeps(w, fd, backendFailure, except);
    SeveredCalls(w, fd);
    SoundWhatever(w, except);
    SoundWhatever(mid, except);
    SoundWhatever(u, except);
    if backendFailure {
      TwoCalls(w, mid, u, {});
    } else {
      OneCall(w, mid, {});
    }
  }

  lemma EjectTraced(w: World, b: nat, except: set<int>)
    requires InvExcept(w, except) && b < w.cfg.backendCount && JustFailed(w.calls, b)
    ensures Traced(w, MaybeEject(w, b), {})
  {
    EjectKeeps(w, b, except);
    SoundWhatever(w, except);
    SoundWhatever(MaybeEject(w, b), except);
    OneCall(w, MaybeEject(w, b), {});
  }

  lemma ClosePairTraced(w: World, fd: int, backendFailure: bool, except: set<int>)
    requires InvExcept(w, except)
    ensures Traced(w, ClosePair(w, fd, backendFailure), {})
  {
    if fd !in w.peers {
      SoundWhatever(w, except);
      TracedRefl(w, {});
    } else {
      var k, side := OwnerOf(w, fd, except);
      var u, b := Severed(w, fd, backendFailure), w.peers[fd].backendIndex;
      SeveredTraced(w, fd, backendFailure, except);
      SeveredKeeps(w, fd, backendFailure, except);
      CloseIsSever(w, fd, backendFailure);
      if backendFailure {
        EjectTraced(u, b, except);
        TracedTrans(w, u, ClosePair(w, fd, backendFailure), {});
      }
    }
  }

  /** Answers taken and time passed make no call. */
  lemma AdvanceTraced(w: World, v: World, except: set<int>)
    requires InvExcept(w, except) && OnlyAdvances(w, v)
    ensures Traced(w, v, {})
  {
    AdvanceKeeps(w, v, except);
    SoundWhatever(w, except);
    SoundWhatever(v, except);
    OneCall(w, v, {});
  }

  lemma ModifyTraced(w: World, fd: int, except: set<int>)
    requires InvExcept(w, except)
    ensures Traced(w, ModifyFd(w, fd), {})
  {
    ModifyKeeps(w, fd, except);
    SoundWhatever(w, except);
    SoundWhatever(ModifyFd(w, fd), except - {fd});
    OneCall(w, ModifyFd(w, fd), {});
  }

  lemma SentTraced(w: World, fd: int, n: nat, except: set<int>)
    requires InvExcept(w, except) && fd in w.peers && !w.peers[fd].connecting
    requires n > 0 && w.peers[fd].sent + n <= |w.peers[fd].outbound|
    ensures Traced(w, Sent(w, fd, n), {})
  {
    SentKeeps(w, fd, n, except);
    SoundWhatever(w, except);
    SoundWhatever(Sent(w, fd, n), except + {w.peers[fd].pairedFd});
    OneCall(w, Sent(w, fd, n), {});
  }

  lemma {:induction false} FlushTraced(w: World, fd: int, except: set<int>)
    requires InvExcept(w, except)
    ensures Traced(w, Flush(w, fd), {})
    decreases |w.writeAnswers|
  {
    SoundWhatever(w, except);
    if fd !in w.peers || w.peers[fd].connecting || w.peers[fd].sent >= |w.peers[fd].outbound| || w.writeAnswers == [] {
      TracedRefl(w, {});
      if fd in w.peers && w.peers[fd].sent >= |w.peers[fd].outbound| {
        EmptiedIsSame(w, fd, except);
      }
    } else {
      var v := w.(writeAnswers := w.writeAnswers[1..]);
      AdvanceKeeps(w, v, except);
      AdvanceTraced(w, v, except);
      match NextWrite(w, |w.peers[fd].outbound| - w.peers[fd].sent)
      case Wrote(n) =>
        WroteTraced(w, v, fd, n, except);
      case WriteInterrupted =>
        FlushTraced(v, fd, except);
        TracedTrans(w, v, Flush(w, fd), {});
      case WriteError =>
        ClosePairTraced(v, fd, w.peers[fd].backendSide, except);
        TracedTrans(w, v, Flush(w, fd), {});
      case WriteWouldBlock =>
    }
  }

  lemma {:induction false} WroteTraced(w: World, v: World, fd: int, n: nat, except: set<int>)
    requires WroteCase(w, v, fd, n) && InvExcept(v, except) && Traced(w, v, {})
    ensures Traced(w, Flush(w, fd), {})
    decreases |w.writeAnswers|, 0
  {
    if n == 0 {
      WroteNothingTraced(w, v, fd, except);
    } else if v.peers[fd].sent + n == |v.peers[fd].outbound| {
      WroteAllTraced(w, v, fd, n, except);
    } else {
      var s := Sent(v, fd, n);
      SentKeeps(v, fd, n, except);
      SentTraced(v, fd, n, except);
      FlushTraced(s, fd, except);
      WrotePartTraced(w, v, fd, n);
    }
  }

  lemma WroteNothingTraced(w: World, v: World, fd: int, except: set<int>)
    requires WroteCase(w, v, fd, 0) && InvExcept(v, except) && Traced(w, v, {})
    ensures Traced(w, Flush(w, fd), {})
  {
    var r := ClosePair(v, fd, v.peers[fd].backendSide);
    assert Flush(w, fd) == r;
    ClosePairTraced(v, fd, v.peers[fd].backendSide, except);
    TracedTrans(w, v, r, {});
  }

  lemma WroteAllTraced(w: World, v: World, fd: int, n: nat, except: set<int>)
    requires WroteCase(w, v, fd, n) && n > 0 && InvExcept(v, except) && Traced(w, v, {})
    requires v.peers[fd].sent + n == |v.peers[fd].outbound|
    ensures Traced(w, Flush(w, fd), {})
  {
    var r := ModifyFd(Sent(v, fd, n), v.peers[fd].pairedFd);
    assert Flush(w, fd) == r;
    SentWholeTraced(v, fd, n, except);
    TracedTrans(w, v, r, {});
  }

  lemma SentWholeTraced(v: World, fd: int, n: nat, except: set<int>)
    requires InvExcept(v, except) && fd in v.peers && !v.peers[fd].connecting
    requires n > 0 && v.peers[fd].sent + n == |v.peers[fd].outbound|
    ensures Traced(v, ModifyFd(Sent(v, fd, n), v.peers[fd].pairedFd), {})
  {
    var s, q := Sent(v, fd, n), v.peers[fd].pairedFd;
    SentKeeps(v, fd, n, except);
    SentTraced(v, fd, n, except);
    ModifyTraced(s, q, except + {q});
    TracedTrans(v, s, ModifyFd(s, q), {});
  }

  lemma WrotePartTraced(w: World, v: World, fd: int, n: nat)
    requires WroteCase(w, v, fd, n) && 0 < n < |v.peers[fd].outbound| - v.peers[fd].sent
    requires Traced(w, v, {}) && Traced(v, Sent(v, fd, n), {})
    requires Traced(Sent(v, fd, n), Flush(Sent(v, fd, n), fd), {})
    ensures Traced(w, Flush(w, fd), {})
  {
    var s := Sent(v, fd, n);
    var r := Flush(s, fd);
    assert Flush(w, fd) == r;
    TracedTrans(v, s, r, {});
    TracedTrans(w, v, r, {});
  }

  lemma ForwardTraced(w: World, fd: int, chunk: Chunk)
    requires Inv(w) && fd in w.peers && w.peers[fd].pairedFd in w.peers
    requires |w.peers[w.peers[fd].pairedFd].outbound| < HIGH_WATERMARK
    ensures Traced(w, Forward(w, fd, chunk), {fd})
  {
    var q := w.peers[fd].pairedFd;
    var r := Received(w, fd, chunk);
    var f := Flush(r, q);
    var m := ModifyFd(f, fd);
    ReceivedKeeps(w, fd, chunk, {});
    SoundWhatever(w, {});
    SoundWhatever(r, {} + {fd, q});
    OneCall(w, r, {fd});
    FlushKeeps(r, q, {} + {fd, q});
    FlushTraced(r, q, {} + {fd, q});
    ModifyKeeps(f, fd, {} + {fd, q});
    ModifyTraced(f, fd, {} + {fd, q});
    ModifyTraced(m, q, {} + {fd, q} - {fd});
    TracedTrans(r, f, m, {});
    TracedTrans(r, m, Forward(w, fd, chunk), {});
    TracedMore(r, Forward(w, fd, chunk), {}, {fd});
    TracedTrans(w, r, Forward(w, fd, chunk), {fd});
  }

  lemma {:induction false} ReadTraced(w: World, fd: int)
    requires Inv(w) && Roomy(w, fd)
    ensures Traced(w, ReadAvailable(w, fd), {fd})
    decreases |w.readAnswers|
  {
    SoundWhatever(w, {});
    if fd !in w.peers || w.readAnswers == [] {
      TracedRefl(w, {fd});
    } else {
      var p, v := w.peers[fd], w.(readAnswers := w.readAnswers[1..]);
      AdvanceKeeps(w, v, {});
      AdvanceTraced(w, v, {});
      TracedMore(w, v, {}, {fd});
      match NextRead(w)
      case Data(chunk) =>
        DataTraced(w, v, fd, chunk);
      case ReadInterrupted =>
        ReadTraced(v, fd);
        TracedTrans(w, v, ReadAvailable(w, fd), {fd});
      case ReadWouldBlock =>
      case _ =>
        var failure := NextRead(w).ReadError? && p.backendSide;
        ClosePairTraced(v, fd, failure, {});
        TracedMore(v, ClosePair(v, fd, failure), {}, {fd});
        TracedTrans(w, v, ReadAvailable(w, fd), {fd});
    }
  }

  lemma {:induction false} DataTraced(w: World, v: World, fd: int, chunk: Chunk)
    requires Inv(v) && Roomy(v, fd) && fd in v.peers && Traced(w, v, {fd})
    requires w.readAnswers != [] && v == w.(readAnswers := w.readAnswers[1..]) && w.readAnswers[0] == Data(chunk)
    ensures Traced(w, ReadAvailable(w, fd), {fd})
    decreases |w.readAnswers|, 0
  {
    var k, side := OwnerOf(v, fd, {});
    var q, f := v.peers[fd].pairedFd, Forward(v, fd, chunk);
    ForwardKeeps(v, fd, chunk);
    ForwardTraced(v, fd, chunk);
    TracedTrans(w, v, f, {fd});
    if !Throttled(f, q) {
      if fd in f.peers { PairSurvives(v, f, fd, {}, {fd}); }
      ReadTraced(f, fd);
      TracedTrans(w, f, ReadAvailable(f, fd), {fd});
    }
  }

  lemma RecordsTraced(w: World, first: Call, second: Call, except: set<int>)
    requires InvExcept(w, except) && Plain(w, first) && Plain(w, second)
    ensures Traced(w, Record(Record(w, first), second), {})
  {
    var mid := Record(w, first);
    TwoRecords(w, first, second, except);
    SoundWhatever(w, except);
    SoundWhatever(mid, except);
    SoundWhatever(Record(mid, second), except);
    TwoCalls(w, mid, Record(mid, second), {});
  }

  lemma EstablishedTraced(w: World, fd: int)
    requires Inv(w) && fd in w.peers && w.peers[fd].connecting
    ensures Traced(w, Established(w, fd), {})
  {
    var v, b := Connect(w, fd), w.peers[fd].backendIndex;
    ConnectKeeps(w, fd);
    SoundWhatever(w, {});
    SoundWhatever(v, {fd});
    OneCall(w, v, {});
    RecordsTraced(v, Latency(b, v.now - w.peers[fd].connectStartedAt), Healthy(b), {fd});
    TracedTrans(w, v, Established(w, fd), {});
  }

  lemma FinishConnectTraced(w: World, fd: int)
    requires Inv(w) && (fd in w.peers ==> w.peers[fd].connecting)
    ensures Traced(w, FinishConnect(w, fd), {})
  {
    if fd !in w.peers {
      SoundWhatever(w, {});
      TracedRefl(w, {});
    } else {
      var v := if w.connectAnswers == [] then w else w.(connectAnswers := w.connectAnswers[1..]);
      AdvanceKeeps(w, v, {});
      AdvanceTraced(w, v, {});
      if !SocketHealthy(w) {
        ClosePairTraced(v, fd, true, {});
      } else {
        var e := Established(v, fd);
        var f := Flush(e, fd);
        EstablishedKeeps(v, fd);
        EstablishedTraced(v, fd);
        FlushKeeps(e, fd, {fd});
        FlushTraced(e, fd, {fd});
        ModifyTraced(f, fd, {fd});
        TracedTrans(v, e, f, {});
        TracedTrans(v, f, ModifyFd(f, fd), {});
      }
      TracedTrans(w, v, FinishConnect(w, fd), {});
    }
  }

  lemma AttachTraced(w: World, client: int, route: Route)
    requires Inv(w) && Possible(w, Accepted(client, route))
    ensures Traced(w, AttachBackend(w, client, route), {})
  {
    SoundWhatever(w, {});
    match route
    case NoBackend =>
      TurnAwayKeeps(w, client);
      SoundWhatever(TurnAway(w, client), {});
      OneCall(w, TurnAway(w, client), {});
    case Refused(b) =>
      RefusedTraced(w, client, b);
    case Routed(b, fd) =>
      JoinKeeps(w, client, fd, b);
      SoundWhatever(Join(w, client, fd, b), {});
      OneCall(w, Join(w, client, fd, b), {});
  }

  lemma RefusedTraced(w: World, client: int, b: nat)
    requires Inv(w) && Fresh(w, client) && b < w.cfg.backendCount
    ensures Traced(w, AttachBackend(w, client, Refused(b)), {})
  {
    var r := Record(w.(refused := w.refused + [b]), Failure(b));
    var e := MaybeEject(r, b);
    RefuseKeeps(w, b);
    EjectKeeps(r, b, {});
    assert e.peers == w.peers && e.cfg == w.cfg;
    TurnAwayKeeps(e, client);
    SoundWhatever(w, {});
    SoundWhatever(r, {});
    SoundWhatever(e, {});
    SoundWhatever(TurnAway(e, client), {});
    OneCall(w, r, {});
    OneCall(r, e, {});
    OneCall(e, TurnAway(e, client), {});
    TracedTrans(w, r, e, {});
    TracedTrans(w, e, TurnAway(e, client), {});
  }

  lemma {:induction false} AcceptTraced(w: World)
    requires Inv(w)
    ensures Traced(w, AcceptClients(w), {})
    decreases |w.acceptAnswers|
  {
    SoundWhatever(w, {});
    if w.acceptAnswers == [] {
      TracedRefl(w, {});
    } else {
      var v := w.(acceptAnswers := w.acceptAnswers[1..]);
      AdvanceKeeps(w, v, {});
      AdvanceTraced(w, v, {});
      match NextAccept(w)
      case Accepted(client, route) =>
        var a := AttachBackend(v, client, route);
        AttachKeeps(v, client, route);
        AttachTraced(v, client, route);
        AcceptTraced(a);
        TracedTrans(w, v, a, {});
        TracedTrans(w, a, AcceptClients(w), {});
      case AcceptInterrupted =>
        AcceptTraced(v);
        TracedTrans(w, v, AcceptClients(w), {});
      case _ =>
    }
  }

  lemma ReapOneTraced(w: World, fd: int, connectTimeout: bool)
    requires Inv(w)
    ensures Traced(w, ReapOne(w, fd, connectTimeout), {})
  {
    var call := if connectTimeout then ConnectTimeout else IdleTimeout;
    var r := Record(w, call);
    RecordKeeps(w, call, {});
    SoundWhatever(w, {});
    SoundWhatever(r, {});
    OneCall(w, r, {});
    ClosePairTraced(r, fd, connectTimeout, {});
    TracedTrans(w, r, ReapOne(w, fd, connectTimeout), {});
  }

  lemma {:induction false} ReapAllTraced(w: World, expired: seq<(int, bool)>)
    requires Inv(w)
    ensures Traced(w, ReapAll(w, expired), {})
    decreases |expired|
  {
    SoundWhatever(w, {});
    if expired == [] {
      TracedRefl(w, {});
    } else {
      var r := ReapOne(w, expired[0].0, expired[0].1);
      ReapOneKeeps(w, expired[0].0, expired[0].1);
      ReapOneTraced(w, expired[0].0, expired[0].1);
      ReapAllTraced(r, expired[1..]);
      TracedTrans(w, r, ReapAll(w, expired), {});
    }
  }

  lemma ReapTraced(w: World, order: seq<int>)
    requires Inv(w)
    ensures Traced(w, ReapTimeouts(w, order), {})
  {
    var t := Tick(w);
    AdvanceKeeps(w, t, {});
    AdvanceTraced(w, t, {});
    ReapAllTraced(t, ExpiredList(t, order));
    TracedTrans(w, t, ReapTimeouts(w, order), {});
  }

  lemma SocketEventTraced(w: World, ev: Event, order: seq<int>)
    requires Inv(w) && (ev.input ==> Roomy(w, ev.fd)) && ev.fd in w.peers && !ev.hangup
    requires ev.fd != w.cfg.listenerFd && ev.fd != w.cfg.timerFd
    ensures Traced(w, HandleEvent(w, ev, order), Source(ev))
  {
    var r := HandleEvent(w, ev, order);
    var a := if w.peers[ev.fd].connecting && ev.output then FinishConnect(w, ev.fd) else w;
    SoundWhatever(w, {});
    TracedRefl(w, Source(ev));
    if w.peers[ev.fd].connecting && ev.output {
      FinishConnectKeeps(w, ev.fd);
      FinishConnectTraced(w, ev.fd);
      TracedMore(w, a, {}, Source(ev));
      if ev.input { RoomyAfterConnect(w, ev.fd); }
    }
    var b := if ev.fd in a.peers && ev.input then ReadAvailable(a, ev.fd) else a;
    if ev.fd in a.peers && ev.input {
      ReadKeeps(a, ev.fd);
      ReadTraced(a, ev.fd);
      TracedTrans(w, a, b, Source(ev));
    }
    if ev.fd in b.peers && ev.output {
      FlushTraced(b, ev.fd, {});
      TracedMore(b, r, {}, Source(ev));
      TracedTrans(w, b, r, Source(ev));
    }
  }

  lemma HandleTraced(w: World, ev: Event, order: seq<int>)
    requires Inv(w) && (ev.input ==> Roomy(w, ev.fd))
    ensures Traced(w, HandleEvent(w, ev, order), Source(ev))
  {
    var r := HandleEvent(w, ev, order);
    SoundWhatever(w, {});
    if ev.fd == w.cfg.listenerFd {
      AcceptTraced(w);
      TracedMore(w, r, {}, Source(ev));
    } else if ev.fd == w.cfg.timerFd {
      ReapTraced(w, order);
      TracedMore(w, r, {}, Source(ev));
    } else if ev.fd !in w.peers {
      TracedRefl(w, Source(ev));
    } else if ev.hangup {
      ClosePairTraced(w, ev.fd, w.peers[ev.fd].backendSide, {});
      TracedMore(w, r, {}, Source(ev));
    } else {
      SocketEventTraced(w, ev, order);
    }
  }

  lemma {:induction false} CloseAllTraced(w: World, order: seq<int>)
    requires Inv(w)
    ensures Traced(w, CloseAll(w, order), {})
    decreases |order|
  {
    SoundWhatever(w, {});
    if order == [] {
      TracedRefl(w, {});
    } else {
      var c := ClosePair(w, order[0], false);
      ClosePairTraced(w, order[0], false, {});
      if order[0] in w.peers { ClosePairKeeps(w, order[0], false, {}); }
      CloseAllTraced(c, order[1..]);
      TracedTrans(w, c, CloseAll(w, order), {});
    }
  }

  /** One step of a run, call by call. */
  lemma StepTraced(run: seq<Loop>, i: nat)
    requires IsRun(run) && i + 1 < |run|
    ensures Traced(run[i].w, run[i + 1].w, if run[i].pending == [] then {} else Source(run[i].pending[0]))
  {
    RunInvariant(run, i);
    var a, b := run[i], run[i + 1];
    assert Next(a, b);
    SoundWhatever(a.w, {});
    if a.pending == [] {
      TracedRefl(a.w, {});
    } else {
      var order :| Visits(order, a.w.peers.Keys) && b.w == HandleEvent(a.w, a.pending[0], order);
      HandleTraced(a.w, a.pending[0], order);
    }
  }

  /** At every moment of a worker's life, between any two calls it makes, there is a sound
      state of it that has made exactly the calls so far. */
  lemma {:induction false} EveryMoment(run: seq<Loop>, i: nat, n: nat) returns (v: World)
    requires IsRun(run) && i < |run| && n <= |run[i].w.calls|
    ensures Sound(v) && v.calls == run[i].w.calls[..n]
  {
    RunInvariant(run, i);
    if i == 0 {
      SoundWhatever(run[0].w, {});
      v := run[0].w;
      assert run[0].w.calls == [];
    } else {
      StepTraced(run, i - 1);
      var a, b := run[i - 1].w, run[i].w;
      if n <= |a.calls| {
        v := EveryMoment(run, i - 1, n);
        assert a.calls[..n] == b.calls[..n];
      } else {
        var from := if run[i - 1].pending == [] then {} else Source(run[i - 1].pending[0]);
        assert HasMoment(a, b.calls, n, from);
        v :| Moment(a, v, b.calls, n, from);
      }
    }
  }

  /** And likewise while it shuts down. */
  lemma EveryMomentOfShutdown(run: seq<Loop>, order: seq<int>, n: nat) returns (v: World)
    requires IsRun(run) && n <= |Shutdown(run[|run| - 1].w, order).calls|
    ensures Sound(v) && v.calls == Shutdown(run[|run| - 1].w, order).calls[..n]
  {
    var a := run[|run| - 1].w;
    RunInvariant(run, |run| - 1);
    CloseAllTraced(a, order);
    if n <= |a.calls| {
      v := EveryMoment(run, |run| - 1, n);
    } else {
      assert HasMoment(a, CloseAll(a, order).calls, n, {});
      v :| Moment(a, v, CloseAll(a, order).calls, n, {});
    }
  }
}
