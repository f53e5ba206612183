/** Whole runs of a worker's event loop, and what holds at every event boundary. */
module Runs {
  import opened Calls
  import opened Outcomes
  import opened Engine
  import opened Invariant
  import opened Steps
  import opened Handlers

  /** The worker between two events: its state and the rest of the batch that
      `epoll_wait` returned. */
  datatype Loop = Loop(w: World, pending: seq<Event>)

  /** The kernel gave the worker three different descriptors. */
  predicate OwnDistinct(cfg: Settings) {
    cfg.listenerFd != cfg.timerFd && cfg.listenerFd != cfg.epollFd && cfg.timerFd != cfg.epollFd
  }

  predicate Initial(w: World) {
    && w.peers == map[] && w.armed == map[] && w.owner == map[]
    && w.conns == [] && w.refused == [] && w.sockets == Setup(w.cfg) && OwnDistinct(w.cfg) && w.calls == []
  }

  predicate Distinct(events: seq<Event>) {
    forall i, j | 0 <= i < j < |events| :: events[i].fd != events[j].fd
  }

  /** A batch reports each descriptor once, and only what is armed at that moment. */
  predicate Batch(w: World, events: seq<Event>) {
    && Distinct(events)
    && forall i | 0 <= i < |events| && events[i].fd in w.armed ::
         && (events[i].input ==> w.armed[events[i].fd].input)
         && (events[i].output ==> w.armed[events[i].fd].output)
  }

  ghost predicate Handled(a: World, ev: Event, b: World) {
    exists order: seq<int> :: Visits(order, a.peers.Keys) && b == HandleEvent(a, ev, order)
  }

  ghost predicate Next(a: Loop, b: Loop) {
    if a.pending == [] then b.w == a.w && Batch(a.w, b.pending)
    else b.pending == a.pending[1..] && Handled(a.w, a.pending[0], b.w)
  }

  ghost predicate IsRun(run: seq<Loop>) {
    && |run| > 0 && Initial(run[0].w) && run[0].pending == []
    && forall i | 0 <= i < |run| - 1 :: Next(run[i], run[i + 1])
  }

  /** No unprocessed event asks to read towards a full buffer, even if its descriptor
      has been closed and reused earlier in the same batch. */
  ghost predicate LoopInv(l: Loop) {
    && Inv(l.w)
    && Distinct(l.pending)
    && forall i | 0 <= i < |l.pending| && l.pending[i].input :: Roomy(l.w, l.pending[i].fd)
  }

  lemma SetupHolds(cfg: Settings)
    requires OwnDistinct(cfg)
    ensures OpenAfter(Setup(cfg)) == Some(Own(cfg))
  {
    var l, e, t := cfg.listenerFd, cfg.epollFd, cfg.timerFd;
    ObtainAppend([], l, {});
    ObtainAppend([] + [Obtain(l)], e, {} + {l});
    ObtainAppend([] + [Obtain(l)] + [Obtain(e)], t, {} + {l} + {e});
    assert [] + [Obtain(l)] + [Obtain(e)] + [Obtain(t)] == Setup(cfg);
    assert {} + {l} + {e} + {t} == Own(cfg);
  }

  lemma InitialOk(w: World)
    requires Initial(w)
    ensures Inv(w)
  {
    assert w.peers.Keys == {};
    SetupHolds(w.cfg);
    assert w.peers.Keys + Own(w.cfg) == Own(w.cfg);
    forall cell | Counted(cell) ensures Net(w.calls, cell) == SumBooked(w.conns, cell) + SumRefused(w.refused, cell) {}
  }

  lemma WaitKeeps(a: Loop, b: Loop)
    requires LoopInv(a) && a.pending == [] && Next(a, b)
    ensures LoopInv(b)
  {
    forall i | 0 <= i < |b.pending| && b.pending[i].input ensures Roomy(b.w, b.pending[i].fd) {
      var fd := b.pending[i].fd;
      if fd in b.w.peers {
        var k, side := OwnerOf(b.w, fd, {});
        assert ArmOk(b.w, k, side);
      }
    }
  }

  /** Handling one event leaves room behind every other descriptor that had it, and
      behind every descriptor of a connection made meanwhile. */
  lemma RoomyElsewhere(a: World, ev: Event, order: seq<int>, fd: int)
    requires Inv(a) && (ev.input ==> Roomy(a, ev.fd))
    requires fd != ev.fd && Roomy(a, fd)
    ensures Roomy(HandleEvent(a, ev, order), fd)
  {
    HandleKeeps(a, ev, order);
    var b := HandleEvent(a, ev, order);
    if fd in b.peers {
      var k, side := OwnerOf(b, fd, {});
      assert BufferEvolves(a, b, k, !side, Source(ev));
      if k < |a.conns| {
        assert ConnEvolves(a.conns[k], b.conns[k], Source(ev));
        assert SideOk(a, k, side) && SideOk(a, k, !side);
      }
    }
  }

  lemma StepKeeps(a: Loop, b: Loop)
    requires LoopInv(a) && Next(a, b)
    ensures LoopInv(b)
    ensures Evolves(a.w, b.w, if a.pending == [] then {} else Source(a.pending[0]))
  {
    if a.pending == [] {
      WaitKeeps(a, b);
      EvolvesRefl(a.w, {});
    } else {
      var ev := a.pending[0];
      var order :| Visits(order, a.w.peers.Keys) && b.w == HandleEvent(a.w, ev, order);
      HandleKeeps(a.w, ev, order);
      forall i | 0 <= i < |b.pending| && b.pending[i].input ensures Roomy(b.w, b.pending[i].fd) {
        assert b.pending[i] == a.pending[i + 1];
        RoomyElsewhere(a.w, ev, order, b.pending[i].fd);
      }
    }
  }

  lemma {:induction false} RunInvariant(run: seq<Loop>, i: nat)
    requires IsRun(run) && i < |run|
    ensures LoopInv(run[i])
  {
    if i == 0 {
      InitialOk(run[0].w);
    } else {
      RunInvariant(run, i - 1);
      assert Next(run[i - 1], run[i]);
      StepKeeps(run[i - 1], run[i]);
    }
  }

  /** A run is a chain of steps that all keep the invariant. */
  lemma RunStep(run: seq<Loop>, i: nat)
    requires IsRun(run) && i + 1 < |run|
    ensures LoopInv(run[i]) && LoopInv(run[i + 1])
    ensures Evolves(run[i].w, run[i + 1].w, if run[i].pending == [] then {} else Source(run[i].pending[0]))
  {
    RunInvariant(run, i);
    assert Next(run[i], run[i + 1]);
    StepKeeps(run[i], run[i + 1]);
  }

  // ----- What holds at every event boundary of every run -----

  /** Bytes arrive in order, none lost and none twice.  While a connection lives, what
      was read from one socket is what was written to the other followed by what is still
      pending; once it has ended, what was written is a prefix of what was read. */
  lemma StreamFidelity(run: seq<Loop>, i: nat, k: nat, side: bool)
    requires IsRun(run) && i < |run| && k < |run[i].w.conns|
    ensures var w := run[i].w; var source, target := w.conns[k].Of(!side), w.conns[k].Of(side);
            if w.conns[k].fate.Alive? then
              target.fd in w.peers && source.received == target.delivered + Pending(w.peers[target.fd])
            else target.delivered <= source.received
  {
    RunInvariant(run, i);
    if run[i].w.conns[k].fate.Alive? {
      assert SideOk(run[i].w, k, side);
    } else {
      assert EndedOk(run[i].w.conns[k]);
    }
  }

  /** No buffer ever reaches the high-water mark plus one read. */
  lemma BufferBound(run: seq<Loop>, i: nat, fd: int)
    requires IsRun(run) && i < |run| && fd in run[i].w.peers
    ensures |run[i].w.peers[fd].outbound| < HIGH_WATERMARK + BUFFER_SIZE
  {
    RunInvariant(run, i);
    var k, side := OwnerOf(run[i].w, fd, {});
  }

  /** Pairing is an involution without fixed points between a client socket and a
      backend socket of the same backend; a client socket is never connecting. */
  lemma Pairing(run: seq<Loop>, i: nat, fd: int)
    requires IsRun(run) && i < |run| && fd in run[i].w.peers
    ensures var peers := run[i].w.peers; var p := peers[fd];
            && p.pairedFd in peers && p.pairedFd != fd && peers[p.pairedFd].pairedFd == fd
            && peers[p.pairedFd].backendSide != p.backendSide
            && peers[p.pairedFd].backendIndex == p.backendIndex
            && (p.connecting ==> p.backendSide)
            && (p.sent < |p.outbound| || (p.sent == 0 && p.outbound == []))
  {
    RunInvariant(run, i);
    var k, side := OwnerOf(run[i].w, fd, {});
  }

  /** Input interest is exact; output interest is registered whenever it is needed. */
  lemma NoLostWakeup(run: seq<Loop>, i: nat, fd: int)
    requires IsRun(run) && i < |run| && fd in run[i].w.peers
    ensures var w := run[i].w; var p := w.peers[fd];
            && fd in w.armed && p.pairedFd in w.peers
            && (w.armed[fd].input <==> !p.connecting && |w.peers[p.pairedFd].outbound| < HIGH_WATERMARK)
            && (p.connecting || p.sent < |p.outbound| ==> w.armed[fd].output)
  {
    RunInvariant(run, i);
    var k, side := OwnerOf(run[i].w, fd, {});
    assert ArmOk(run[i].w, k, side);
  }

  /** A connected socket that is not being read always waits for a partner that is
      registered for output and has bytes to write. */
  lemma NoDeadlock(run: seq<Loop>, i: nat, fd: int)
    requires IsRun(run) && i < |run| && fd in run[i].w.peers
    requires !run[i].w.peers[fd].connecting && fd in run[i].w.armed && !run[i].w.armed[fd].input
    ensures var w := run[i].w; var q := w.peers[fd].pairedFd;
            q in w.peers && q in w.armed && w.armed[q].output && Pending(w.peers[q]) != []
  {
    NoLostWakeup(run, i, fd);
    Pairing(run, i, fd);
    NoLostWakeup(run, i, run[i].w.peers[fd].pairedFd);
    Pairing(run, i, run[i].w.peers[fd].pairedFd);
  }

  /** The descriptors obtained and not yet closed are exactly the registered ones and the
      worker's own, and none was ever closed twice or obtained while open. */
  lemma DescriptorConservation(run: seq<Loop>, i: nat)
    requires IsRun(run) && i < |run|
    ensures OpenAfter(run[i].w.sockets) == Some(run[i].w.peers.Keys + Own(run[i].w.cfg))
    ensures run[i].w.peers.Keys !! Own(run[i].w.cfg)
    ensures run[i].w.armed.Keys == run[i].w.peers.Keys
  {
    RunInvariant(run, i);
  }

  /** Every counter, as far as this worker moves it, is the sum over its connections and
      refusals, and the calls that move it close only what was opened. */
  lemma Ledger(run: seq<Loop>, i: nat, cell: Cell)
    requires IsRun(run) && i < |run| && Counted(cell)
    ensures var w := run[i].w;
            Disciplined(w.calls) && Net(w.calls, cell) == SumBooked(w.conns, cell) + SumRefused(w.refused, cell)
  {
    RunInvariant(run, i);
  }

  /** A connection keeps its identity, its histories only grow, and nothing happens to
      it once it has ended. */
  predicate Grown(c: Conn, c': Conn, side: bool) {
    && c'.index == c.index && c'.openedAt == c.openedAt && c'.Of(side).fd == c.Of(side).fd
    && c.Of(side).received <= c'.Of(side).received
    && c.Of(side).delivered <= c'.Of(side).delivered
    && (!c.fate.Alive? ==> c' == c)
  }

  lemma GrownStep(run: seq<Loop>, i: nat, k: nat, side: bool)
    requires IsRun(run) && i + 1 < |run| && k < |run[i].w.conns|
    ensures k < |run[i + 1].w.conns| && Grown(run[i].w.conns[k], run[i + 1].w.conns[k], side)
  {
    RunStep(run, i);
    var from := if run[i].pending == [] then {} else Source(run[i].pending[0]);
    assert ConnEvolves(run[i].w.conns[k], run[i + 1].w.conns[k], from);
    assert ReadsEvolve(run[i].w.conns[k].Of(side), run[i + 1].w.conns[k].Of(side), from);
  }

  /** Over any stretch of a run every connection grows in this sense, even when its
      descriptors are closed and reused. */
  lemma {:induction false} HistoriesGrow(run: seq<Loop>, i: nat, j: nat, k: nat, side: bool)
    requires IsRun(run) && i <= j < |run| && k < |run[i].w.conns|
    ensures k < |run[j].w.conns| && Grown(run[i].w.conns[k], run[j].w.conns[k], side)
    decreases j
  {
    if i == j {
    } else {
      HistoriesGrow(run, i, j - 1, k, side);
      GrownStep(run, j - 1, k, side);
    }
  }

  // ----- Back-pressure -----

  /** The buffer that holds the bytes read from one socket of connection `k`. */
  function Buffer(w: World, k: nat, source: bool): Option<Peer>
    requires k < |w.conns|
  {
    var fd := w.conns[k].Of(!source).fd;
    if w.conns[k].fate.Alive? && fd in w.peers then Some(w.peers[fd]) else None
  }

  predicate Paused(w: World, k: nat, source: bool) {
    k < |w.conns| && Buffer(w, k, source).Some? && |Buffer(w, k, source).value.outbound| >= HIGH_WATERMARK
  }

  /** One event while a source is paused: nothing is read from it; its buffer is either
      still the same buffer, no further from being written, or empty. */
  lemma PausedStep(run: seq<Loop>, i: nat, k: nat, source: bool)
    requires IsRun(run) && i + 1 < |run| && Paused(run[i].w, k, source)
    requires k < |run[i + 1].w.conns| && run[i + 1].w.conns[k].fate.Alive?
    ensures run[i + 1].w.conns[k].Of(source).received == run[i].w.conns[k].Of(source).received
    ensures var now, next := Buffer(run[i].w, k, source), Buffer(run[i + 1].w, k, source);
            next.Some? && Drained(now.value, next.value)
  {
    RunStep(run, i);
    var a, b := run[i].w, run[i + 1].w;
    var from := if run[i].pending == [] then {} else Source(run[i].pending[0]);
    assert SideOk(a, k, source) && SideOk(a, k, !source) && SideOk(b, k, !source);
    assert a.conns[k].Of(source).fd !in from;
    assert ConnEvolves(a.conns[k], b.conns[k], from);
    assert ReadsEvolve(a.conns[k].Of(source), b.conns[k].Of(source), from);
    assert BufferEvolves(a, b, k, !source, from);
  }

  /** The source of a buffer that was at the high-water mark and has since only drained is
      registered for input exactly when the buffer is empty. */
  lemma ReadAgainWhenEmpty(w: World, k: nat, source: bool, start: Peer)
    requires Inv(w) && k < |w.conns| && Buffer(w, k, source).Some?
    requires |start.outbound| >= HIGH_WATERMARK && Drained(start, Buffer(w, k, source).value)
    ensures var fd := w.conns[k].Of(source).fd;
            && fd in w.peers && fd in w.armed
            && (!w.peers[fd].connecting ==>
                  (w.armed[fd].input <==> Buffer(w, k, source).value.outbound == []))
  {
    assert SideOk(w, k, source) && SideOk(w, k, !source) && ArmOk(w, k, source);
  }

  /** Full-drain hysteresis: from a paused state, until the buffer has gone out whole,
      no byte is read from the source and the buffer only loses bytes at its front; the
      source is registered for input again exactly when the buffer is empty. */
  lemma {:induction false} PausedUntilDrained(run: seq<Loop>, i: nat, j: nat, k: nat, source: bool)
    requires IsRun(run) && i <= j < |run| && Paused(run[i].w, k, source)
    requires forall m | i <= m <= j :: k < |run[m].w.conns| && run[m].w.conns[k].fate.Alive?
    requires forall m | i <= m < j ::
               Buffer(run[m].w, k, source).Some? && Buffer(run[m].w, k, source).value.outbound != []
    ensures run[j].w.conns[k].Of(source).received == run[i].w.conns[k].Of(source).received
    ensures var start, end := Buffer(run[i].w, k, source), Buffer(run[j].w, k, source);
            end.Some? && Drained(start.value, end.value)
    ensures var w := run[j].w; var fd := w.conns[k].Of(source).fd;
            && fd in w.peers && fd in w.armed
            && (!w.peers[fd].connecting ==>
                  (w.armed[fd].input <==> Buffer(w, k, source).value.outbound == []))
    decreases j
  {
    if i == j {
    } else {
      PausedUntilDrained(run, i, j - 1, k, source);
      PausedStep(run, j - 1, k, source);
    }
    RunInvariant(run, j);
    ReadAgainWhenEmpty(run[j].w, k, source, Buffer(run[i].w, k, source).value);
  }

  /** A write always makes progress: each positive count removes that many bytes from the
      front of what is pending. */
  lemma WriteProgress(w: World, fd: int, n: nat)
    requires fd in w.peers && 0 < n && w.peers[fd].sent + n <= |w.peers[fd].outbound|
    ensures fd in Sent(w, fd, n).peers
    ensures Pending(w.peers[fd]) == w.peers[fd].outbound[w.peers[fd].sent..][..n] + Pending(Sent(w, fd, n).peers[fd])
    ensures |Pending(Sent(w, fd, n).peers[fd])| + n == |Pending(w.peers[fd])|
  {
    var p := w.peers[fd];
    assert p.outbound[p.sent..] == p.outbound[p.sent..][..n] + p.outbound[p.sent + n..];
  }

  // ----- Shutdown -----

  lemma {:induction false} CloseAllEmpties(w: World, order: seq<int>)
    requires Inv(w) && forall fd | fd in w.peers :: fd in order
    ensures Inv(CloseAll(w, order)) && CloseAll(w, order).peers == map[]
    decreases |order|
  {
    if order != [] {
      var c := ClosePair(w, order[0], false);
      if order[0] in w.peers {
        ClosePairKeeps(w, order[0], false, {});
      }
      forall fd | fd in c.peers ensures fd in order[1..] {
        assert fd in order && fd != order[0];
      }
      CloseAllEmpties(c, order[1..]);
    } else {
      assert forall fd | fd in w.peers.Keys :: fd in order;
      assert w.peers.Keys == {};
    }
  }

  lemma {:induction false} NoneAlive(conns: seq<Conn>, b: nat)
    requires forall k: nat | k < |conns| :: !conns[k].fate.Alive?
    ensures SumBooked(conns, PerBackend(Active, b)) == 0 && SumBooked(conns, Global(Active)) == 0
  {
    if conns == [] {
    } else {
      NoneAlive(conns[..|conns| - 1], b);
    }
  }

  lemma {:induction false} RefusedNotActive(refused: seq<nat>, b: nat)
    ensures SumRefused(refused, PerBackend(Active, b)) == 0 && SumRefused(refused, Global(Active)) == 0
  {
    if refused == [] {
    } else {
      RefusedNotActive(refused[..|refused| - 1], b);
    }
  }

  lemma AliveIsRegistered(w: World, k: nat)
    requires Inv(w) && k < |w.conns|
    ensures if w.conns[k].fate.Alive? then w.conns[k].client.fd in w.peers else EndedOk(w.conns[k])
  {
    if w.conns[k].fate.Alive? {
      assert SideOk(w, k, false);
    }
  }

  lemma OwnClosed(w: World)
    requires OpenAfter(w.sockets) == Some(Own(w.cfg)) && OwnDistinct(w.cfg)
    ensures OpenAfter(CloseOwn(w).sockets) == Some({})
  {
    var l, t, e := w.cfg.listenerFd, w.cfg.timerFd, w.cfg.epollFd;
    ReleaseAppend(w.sockets, l, Own(w.cfg));
    ReleaseAppend(w.sockets + [Release(l)], t, Own(w.cfg) - {l});
    ReleaseAppend(w.sockets + [Release(l)] + [Release(t)], e, Own(w.cfg) - {l} - {t});
    assert Own(w.cfg) - {l} - {t} - {e} == {};
  }

  lemma {:induction false} OwnStayDistinct(run: seq<Loop>, i: nat)
    requires IsRun(run) && i < |run|
    ensures run[i].w.cfg == run[0].w.cfg && OwnDistinct(run[i].w.cfg)
  {
    if i == 0 {
    } else {
      OwnStayDistinct(run, i - 1);
      RunStep(run, i - 1);
    }
  }

  /** Every connection of a worker without registered sockets has ended. */
  lemma AllEnded(w: World, b: nat)
    requires Inv(w) && w.peers == map[]
    ensures forall k: nat | k < |w.conns| :: !w.conns[k].fate.Alive? && EndedOk(w.conns[k])
    ensures Net(w.calls, PerBackend(Active, b)) == 0 && Net(w.calls, Global(Active)) == 0
  {
    forall k: nat | k < |w.conns| ensures !w.conns[k].fate.Alive? && EndedOk(w.conns[k]) {
      AliveIsRegistered(w, k);
    }
    NoneAlive(w.conns, b);
    RefusedNotActive(w.refused, b);
    assert Counted(PerBackend(Active, b)) && Counted(Global(Active));
  }

  /** Stopping at any event boundary, whatever the order of the map: no socket stays
      registered, no descriptor stays open, the worker's own included, and every open this
      worker recorded has its close. */
  lemma CleanShutdown(run: seq<Loop>, i: nat, order: seq<int>, b: nat)
    requires IsRun(run) && i < |run| && Visits(order, run[i].w.peers.Keys)
    ensures var r := Shutdown(run[i].w, order);
            && r.peers == map[] && r.armed == map[]
            && OpenAfter(r.sockets) == Some({})
            && (forall k: nat | k < |r.conns| :: !r.conns[k].fate.Alive? && EndedOk(r.conns[k]))
            && Disciplined(r.calls)
            && Net(r.calls, PerBackend(Active, b)) == 0 && Net(r.calls, Global(Active)) == 0
  {
    RunInvariant(run, i);
    CloseAllEmpties(run[i].w, order);
    CloseAllKeeps(run[i].w, order);
    var r := CloseAll(run[i].w, order);
    assert r.armed.Keys == {} && r.peers.Keys + Own(r.cfg) == Own(r.cfg);
    OwnStayDistinct(run, i);
    OwnClosed(r);
    AllEnded(r, b);
  }
}
