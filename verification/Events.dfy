/** What each event of a run does, by the descriptor it names. */
module Events {
  import opened Arrivals
  import opened Calls
  import opened Engine
  import opened Handlers
  import opened Interests
  import opened Invariant
  import opened Progress
  import opened Runs
  import opened Timeouts
  import opened Touches
  import opened Verdicts

  /** At place `i` the run handles an event. */
  ghost predicate Handles(run: seq<Loop>, i: nat) {
    IsRun(run) && i + 1 < |run| && run[i].pending != []
  }

  lemma Handling(run: seq<Loop>, i: nat) returns (order: seq<int>)
    requires Handles(run, i)
    ensures var w, ev := run[i].w, run[i].pending[0];
            && Visits(order, w.peers.Keys) && run[i + 1].w == HandleEvent(w, ev, order)
            && Inv(w) && Inv(run[i + 1].w) && OwnDistinct(w.cfg) && (ev.input ==> Roomy(w, ev.fd))
  {
    RunInvariant(run, i);
    RunInvariant(run, i + 1);
    OwnStayDistinct(run, i);
    assert Next(run[i], run[i + 1]);
    order :| Visits(order, run[i].w.peers.Keys) && run[i + 1].w == HandleEvent(run[i].w, run[i].pending[0], order);
  }

  // ----- The listener -----

  /** An event of the listener accepts: it opens a connection for every routed client among
      the answers it takes, in order, closes every other client, records opens and failures,
      and stops only where the answers make it stop; the new connections are connecting and
      registered, and no other descriptor is touched. */
  lemma ListenerAccepts(run: seq<Loop>, i: nat) returns (taken: nat)
    requires Handles(run, i) && run[i].pending[0].fd == run[i].w.cfg.listenerFd
    ensures var w, r := run[i].w, run[i + 1].w;
            && AcceptVerdict(w, r, taken) && AcceptConsumed(w, r, taken) && AcceptStopped(w, r, taken)
            && AcceptRecord(w, r, taken) && Arrived(w, r)
  {
    var order := Handling(run, i);
    taken := AcceptTells(run[i].w);
    AcceptArrived(run[i].w);
  }

  // ----- The timer -----

  /** An event of the timer reads the clock once and reaps: by that time it decides about
      every connection. */
  lemma TimerReaps(run: seq<Loop>, i: nat, k: nat)
    requires Handles(run, i) && run[i].pending[0].fd == run[i].w.cfg.timerFd && k < |run[i].w.conns|
    ensures var w, r := run[i].w, run[i + 1].w;
            r.now == NextTime(w) && |r.conns| == |w.conns| && TimerVerdict(w, r, k)
  {
    var order := Handling(run, i);
    ReapExact(run[i].w, order, k);
  }

  /** The timeout counters rise by exactly what it removed, the error counter by exactly the
      connect timeouts. */
  lemma TimerCounts(run: seq<Loop>, i: nat)
    requires Handles(run, i) && run[i].pending[0].fd == run[i].w.cfg.timerFd
    ensures var w, r := run[i].w, run[i + 1].w;
            var connect := Net(r.calls, ConnectTimeouts) - Net(w.calls, ConnectTimeouts);
            var idle := Net(r.calls, IdleTimeouts) - Net(w.calls, IdleTimeouts);
            && r.now == NextTime(w) && |r.conns| == |w.conns| && r.refused == w.refused
            && connect == Net(r.calls, Global(Errors)) - Net(w.calls, Global(Errors))
            && connect == SumBooked(r.conns, Global(Errors)) - SumBooked(w.conns, Global(Errors))
            && connect + idle == SumBooked(w.conns, Global(Active)) - SumBooked(r.conns, Global(Active))
  {
    var order := Handling(run, i);
    ReapCounters(run[i].w, order);
    ReapLeaves(run[i].w, order);
  }

  // ----- Descriptors closed earlier in the batch -----

  /** An event of a descriptor that is no longer registered changes nothing. */
  lemma StaleIgnored(run: seq<Loop>, i: nat)
    requires Handles(run, i)
    requires var w, fd := run[i].w, run[i].pending[0].fd;
             fd != w.cfg.listenerFd && fd != w.cfg.timerFd && fd !in w.peers
    ensures run[i + 1].w == run[i].w
  {
    var order := Handling(run, i);
  }

  // ----- Sockets -----

  /** A registered descriptor and its partner are the two sockets of one connection. */
  lemma Coupled(w: World, fd: int)
    requires Inv(w) && fd in w.peers
    ensures fd in w.owner && Couple(w, fd, w.peers[fd].pairedFd, w.owner[fd])
    ensures fd != w.cfg.listenerFd && fd != w.cfg.timerFd
  {
    var k, side := OwnerOf(w, fd, {});
  }

  /** A hang-up or error on a socket closes the pair and ends its connection, as a backend
      failure exactly if the socket is the backend's, and touches nothing else. */
  lemma HangupEnds(run: seq<Loop>, i: nat)
    requires Handles(run, i) && run[i].pending[0].fd in run[i].w.peers && run[i].pending[0].hangup
    ensures var w, r, fd := run[i].w, run[i + 1].w, run[i].pending[0].fd;
            && fd in w.owner && w.owner[fd] < |w.conns| == |r.conns|
            && fd !in r.peers && w.peers[fd].pairedFd !in r.peers
            && r.conns[w.owner[fd]] == w.conns[w.owner[fd]].(fate := FateOf(w.peers[fd].backendSide))
            && Only(w, r, fd, w.peers[fd].pairedFd, w.owner[fd], {})
  {
    var order := Handling(run, i);
    var w, fd := run[i].w, run[i].pending[0].fd;
    Coupled(w, fd);
    HangupTells(w, run[i].pending[0], order);
    CloseOnly(w, fd, w.peers[fd].pairedFd, w.owner[fd], w.peers[fd].backendSide, {});
    ClosedSettled(w, fd, w.peers[fd].pairedFd, w.peers[fd].backendSide);
  }

  /** The state in which an output event that completes a connect finds the worker, but for
      the one answer it takes and the socket's being connected. */
  function Completing(w: World, fd: int): World
    requires fd in w.peers
  {
    w.(connectAnswers := if w.connectAnswers == [] then [] else w.connectAnswers[1..],
       peers := w.peers[fd := w.peers[fd].(connecting := false)])
  }

  function Before(w: World, ev: Event): World
    requires ev.fd in w.peers
  {
    if w.peers[ev.fd].connecting && ev.output then Completing(w, ev.fd) else w
  }

  /** The sockets an event may write to: its own if it is an output event, the partner's if
      it is an input event. */
  function Target(ev: Event, partner: int): set<int> {
    (if ev.output then {ev.fd} else {}) + (if ev.input then {partner} else {})
  }

  lemma FinishOnly(w: World, fd: int, y: int, k: nat)
    requires Couple(w, fd, y, k) && fd in w.peers && w.peers[fd].connecting
    ensures Only(Completing(w, fd), FinishConnect(w, fd), fd, y, k, {fd})
  {
    var v := if w.connectAnswers == [] then w else w.(connectAnswers := w.connectAnswers[1..]);
    var c, r := Completing(w, fd), FinishConnect(w, fd);
    if !SocketHealthy(w) {
      CloseOnly(v, fd, y, k, true, {fd});
      ClosedFromCompleting(v, c, r, fd, y, k);
    } else {
      var e := Established(v, fd);
      var f := Flush(e, fd);
      EstablishedOnly(v, c, fd, y, k);
      FlushOnlyPair(e, fd, y, k);
      ModifyOnly(f, fd, fd, y, k, {fd});
      OnlyTrans(c, e, f, fd, y, k, {fd});
      OnlyTrans(c, f, r, fd, y, k, {fd});
    }
  }

  lemma FlushOnlyPair(w: World, x: int, y: int, k: nat)
    requires Couple(w, x, y, k)
    ensures Only(w, Flush(w, x), x, y, k, {x})
  {
    Touches.FlushOnly(w, x, y, k);
  }

  lemma EstablishedOnly(v: World, c: World, fd: int, y: int, k: nat)
    requires Couple(v, fd, y, k) && fd in v.peers
    requires c == v.(peers := v.peers[fd := v.peers[fd].(connecting := false)])
    ensures Only(c, Established(v, fd), fd, y, k, {fd})
  {
  }

  lemma ClosedFromCompleting(v: World, c: World, r: World, fd: int, y: int, k: nat)
    requires fd in v.peers && Only(v, r, fd, y, k, {fd}) && fd !in r.peers
    requires c == v.(peers := v.peers[fd := v.peers[fd].(connecting := false)])
    ensures Only(c, r, fd, y, k, {fd})
  {
    forall z | z != fd && z != y ensures SameAt(c, r, z) {
      assert SameAt(v, r, z);
    }
  }

  /** An event on a socket touches only its own pair: every other connection, descriptor and
      registration stays as it is, no client is accepted, and bytes are written to the
      socket only by an output event and to its partner only by an input event.  Only an
      output event completes a connect, and it takes one answer for that; an event with
      neither flag changes nothing. */
  lemma SocketTouches(run: seq<Loop>, i: nat)
    requires Handles(run, i) && OnSocket(run[i].w, run[i].pending[0])
    ensures var w, r, ev := run[i].w, run[i + 1].w, run[i].pending[0];
            var y := w.peers[ev.fd].pairedFd;
            && ev.fd in w.owner && Only(Before(w, ev), r, ev.fd, y, w.owner[ev.fd], Target(ev, y))
            && (!ev.input && !ev.output ==> r == w)
  {
    var order := Handling(run, i);
    var w, ev := run[i].w, run[i].pending[0];
    Coupled(w, ev.fd);
    Stages(w, ev, order);
    StagesOnly(w, ev, w.peers[ev.fd].pairedFd, w.owner[ev.fd]);
  }

  lemma StagesOnly(w: World, ev: Event, y: int, k: nat)
    requires OnSocket(w, ev) && Couple(w, ev.fd, y, k)
    ensures var b := ReadOut(Connected(w, ev), ev);
            var r := if ev.fd in b.peers && ev.output then Flush(b, ev.fd) else b;
            Only(Before(w, ev), r, ev.fd, y, k, Target(ev, y))
  {
    var x, all, a := ev.fd, Target(ev, y), Connected(w, ev);
    var b := ReadOut(a, ev);
    if w.peers[x].connecting && ev.output {
      FinishOnly(w, x, y, k);
      OnlyMore(Before(w, ev), a, x, y, k, {x}, all);
    } else {
      QuietOnly(w, w, x, y, k, all);
    }
    if x in a.peers && ev.input {
      ReadOnly(a, x, y, k);
      OnlyMore(a, b, x, y, k, {y}, all);
      OnlyTrans(Before(w, ev), a, b, x, y, k, all);
    }
    if x in b.peers && ev.output {
      FlushOnlyPair(b, x, y, k);
      OnlyMore(b, Flush(b, x), x, y, k, {x}, all);
      OnlyTrans(Before(w, ev), b, Flush(b, x), x, y, k, all);
    }
  }

  /** An output event on a connecting socket decides about the connect by the next answer:
      its latency and the backend's health are recorded, or the connection has failed. */
  lemma ConnectDecides(run: seq<Loop>, i: nat)
    requires Handles(run, i) && OnSocket(run[i].w, run[i].pending[0])
    requires var w, ev := run[i].w, run[i].pending[0]; ev.output && w.peers[ev.fd].connecting
    ensures var w, r, fd := run[i].w, run[i + 1].w, run[i].pending[0].fd;
            && fd in w.owner && w.owner[fd] < |w.conns| == |r.conns|
            && if w.connectAnswers != [] && w.connectAnswers[0] then Completed(w, r.calls, w.owner[fd])
               else fd !in r.peers && r.conns[w.owner[fd]] == w.conns[w.owner[fd]].(fate := Failed)
  {
    var order := Handling(run, i);
    var w, ev, r := run[i].w, run[i].pending[0], run[i + 1].w;
    var k, used := FinishConnectTells(w, ev.fd);
    Stages(w, ev, order);
    ConnectedStage(w, ev);
    LaterStages(Connected(w, ev), ev);
  }

  /** Reading and writing after the first stage of an event only adds calls, and does
      nothing to a pair that is closed. */
  lemma LaterStages(a: World, ev: Event)
    requires Inv(a) && (ev.input ==> Roomy(a, ev.fd))
    ensures var b := ReadOut(a, ev);
            var r := if ev.fd in b.peers && ev.output then Flush(b, ev.fd) else b;
            a.calls <= r.calls && |r.conns| == |a.conns| && (ev.fd !in a.peers ==> r == a)
  {
    var b := ReadOut(a, ev);
    ReadStage(a, ev);
    FlushKeeps(b, ev.fd, {});
  }

  // ----- Registration for output -----

  lemma SocketRegistration(run: seq<Loop>, i: nat, x: int)
    requires Handles(run, i) && OnSocket(run[i].w, run[i].pending[0]) && Registered(run[i + 1].w, x)
    ensures Needed(run[i + 1].w, x) || Registered(run[i].w, x)
    ensures !Needed(run[i + 1].w, x) && Needed(run[i].w, x) ==>
              run[i].pending[0].fd == x && run[i].pending[0].output
  {
    var order := Handling(run, i);
    var w, ev := run[i].w, run[i].pending[0];
    Coupled(w, ev.fd);
    SocketRegistered(w, ev, order, w.peers[ev.fd].pairedFd);
    SocketTouches(run, i);
    if x != ev.fd && x != w.peers[ev.fd].pairedFd {
      assert SameAt(Before(w, ev), run[i + 1].w, x);
    }
  }

  lemma AcceptRegistration(w: World, r: World, x: int)
    requires Inv(w) && Inv(r) && Evolves(w, r, {}) && Arrived(w, r) && Registered(r, x)
    ensures if x in w.peers then r.peers[x] == w.peers[x] && Registered(w, x) else Needed(r, x)
  {
    var k, side := OwnerOf(r, x, {});
    if k < |w.conns| {
      WasRegistered(w, r, k, side);
    } else {
      assert Newcomer(r, k, NextTime(w));
    }
  }

  lemma WasRegistered(w: World, r: World, k: nat, side: bool)
    requires Inv(w) && Evolves(w, r, {}) && k < |w.conns| && r.conns[k].fate.Alive?
    ensures r.conns[k].Of(side).fd in w.peers
  {
    assert ConnEvolves(w.conns[k], r.conns[k], {});
    assert SideOk(w, k, side);
  }

  lemma TimerRegistration(run: seq<Loop>, i: nat, x: int)
    requires Handles(run, i) && run[i].pending[0].fd == run[i].w.cfg.timerFd && Registered(run[i + 1].w, x)
    ensures x in run[i].w.peers && run[i + 1].w.peers[x] == run[i].w.peers[x] && Registered(run[i].w, x)
  {
    var order := Handling(run, i);
    var w, r := run[i].w, run[i + 1].w;
    var k, side := OwnerOf(r, x, {});
    ReapLeaves(w, order);
    TimerReaps(run, i, k);
    var c := w.conns[k];
    assert c.fate.Alive? && SamePeers(w, r, c);
    assert c.Of(side).fd == x;
  }

  /** Registration for output is never made without need, and outlives the need only through
      an output event of the very socket: whatever is registered after a step either needs
      it, or was registered before; and if it needed it before and no longer does, the step
      was an output event of that socket. */
  lemma OutputRegistration(run: seq<Loop>, i: nat, x: int)
    requires Handles(run, i) && Registered(run[i + 1].w, x)
    ensures Needed(run[i + 1].w, x) || Registered(run[i].w, x)
    ensures !Needed(run[i + 1].w, x) && Needed(run[i].w, x) ==>
              run[i].pending[0].fd == x && run[i].pending[0].output
  {
    var order := Handling(run, i);
    var w, r, ev := run[i].w, run[i + 1].w, run[i].pending[0];
    if ev.fd == w.cfg.listenerFd {
      var taken := ListenerAccepts(run, i);
      AcceptKeeps(w);
      AcceptRegistration(w, r, x);
    } else if ev.fd == w.cfg.timerFd {
      TimerRegistration(run, i, x);
    } else if ev.fd in w.peers {
      if ev.hangup {
        HangupEnds(run, i);
        assert SameAt(w, r, x);
      } else {
        SocketRegistration(run, i, x);
      }
    } else {
      StaleIgnored(run, i);
    }
  }

  /** And such an event does leave the registration behind: an output event on a connected
      socket never changes it, even when everything has been written. */
  lemma OutputStays(run: seq<Loop>, i: nat)
    requires Handles(run, i) && OnSocket(run[i].w, run[i].pending[0])
    requires var w, ev := run[i].w, run[i].pending[0]; ev.output && !ev.input && !w.peers[ev.fd].connecting
    ensures var w, r, fd := run[i].w, run[i + 1].w, run[i].pending[0].fd;
            fd in r.peers ==> fd in w.armed && fd in r.armed && r.armed[fd] == w.armed[fd]
  {
    var order := Handling(run, i);
    var w, ev := run[i].w, run[i].pending[0];
    Coupled(w, ev.fd);
    FlushSettles(w, ev.fd, w.peers[ev.fd].pairedFd);
  }
}
