/** The timer reaps exactly the connections whose time has run out. */
module Timeouts {
  import opened Calls
  import opened Engine
  import opened Invariant
  import opened Steps
  import opened Handlers

  /** Distinct registered client descriptors. */
  ghost predicate Reapable(w: World, expired: seq<(int, bool)>) {
    && (forall i, j | 0 <= i < j < |expired| :: expired[i].0 != expired[j].0)
    && (forall i | 0 <= i < |expired| :: expired[i].0 in w.peers && !w.peers[expired[i].0].backendSide)
  }

  function Flagged(expired: seq<(int, bool)>, connectTimeout: bool): nat {
    if expired == [] then 0
    else (if expired[0].1 == connectTimeout then 1 else 0) + Flagged(expired[1..], connectTimeout)
  }

  lemma {:induction false} FlaggedTotal(expired: seq<(int, bool)>)
    ensures Flagged(expired, true) + Flagged(expired, false) == |expired|
  {
    if expired == [] {
    } else {
      FlaggedTotal(expired[1..]);
    }
  }

  function FateOf(connectTimeout: bool): Fate {
    if connectTimeout then Failed else Closed
  }

  lemma EjectLeaves(w: World, b: nat)
    ensures var r := MaybeEject(w, b);
            && r.conns == w.conns && r.peers == w.peers && r.armed == w.armed
            && r.now == w.now && r.cfg == w.cfg && r.refused == w.refused
  {
  }

  /** What closing a pair leaves behind. */
  lemma CloseShape(w: World, fd: int, failure: bool, k: nat, side: bool)
    requires Sockets(w) && k < |w.conns| && w.conns[k].fate.Alive? && SideOk(w, k, side) && SideOk(w, k, !side)
    requires fd == w.conns[k].Of(side).fd
    ensures var r := ClosePair(w, fd, failure);
            && r.conns == w.conns[k := w.conns[k].(fate := FateOf(failure))]
            && r.peers == w.peers - {fd, w.peers[fd].pairedFd}
            && r.armed == w.armed - {fd, w.peers[fd].pairedFd}
            && r.now == w.now && r.cfg == w.cfg && r.refused == w.refused
  {
    SeveredShape(w, fd, failure, k, side);
    CloseIsSever(w, fd, failure);
    EjectLeaves(Severed(w, fd, failure), w.peers[fd].backendIndex);
    SeveredFate(w, Severed(w, fd, failure), fd, failure, k, side);
  }

  lemma SeveredFate(w: World, u: World, fd: int, failure: bool, k: nat, side: bool)
    requires k < |w.conns| && w.conns[k].fate.Alive? && SideOk(w, k, side) && fd == w.conns[k].Of(side).fd
    requires Unlinked(w, u, k, FateOf(failure))
    ensures u.conns == w.conns[k := w.conns[k].(fate := FateOf(failure))]
    ensures u.peers == w.peers - {fd, w.peers[fd].pairedFd} && u.armed == w.armed - {fd, w.peers[fd].pairedFd}
    ensures u.now == w.now && u.cfg == w.cfg && u.refused == w.refused
  {
    assert {fd, w.peers[fd].pairedFd} == {w.conns[k].client.fd, w.conns[k].backend.fd};
  }

  lemma ReapOneShape(w: World, fd: int, connectTimeout: bool)
    requires Inv(w) && fd in w.peers
    ensures w.owner[fd] < |w.conns|
    ensures var r, k := ReapOne(w, fd, connectTimeout), w.owner[fd];
            && r.conns == w.conns[k := w.conns[k].(fate := FateOf(connectTimeout))]
            && r.peers == w.peers - {fd, w.peers[fd].pairedFd}
            && r.armed == w.armed - {fd, w.peers[fd].pairedFd}
            && r.now == w.now && r.cfg == w.cfg && r.refused == w.refused
  {
    var k, side := OwnerOf(w, fd, {});
    var v := Record(w, if connectTimeout then ConnectTimeout else IdleTimeout);
    assert Sockets(v);
    assert SideOk(v, k, side) && SideOk(v, k, !side);
    CloseShape(v, fd, connectTimeout, k, side);
  }

  lemma EjectMovesNothing(b: nat, cell: Cell)
    ensures Effect(Eject(b), cell) == 0
  {
  }

  lemma EjectCounts(w: World, b: nat, cell: Cell)
    ensures Net(MaybeEject(w, b).calls, cell) == Net(w.calls, cell)
  {
    NetAppend(w.calls, Eject(b), cell);
    EjectMovesNothing(b, cell);
  }

  /** What closing a pair adds to a counter. */
  lemma CloseCounts(w: World, fd: int, failure: bool, cell: Cell)
    requires fd in w.peers
    ensures var b := w.peers[fd].backendIndex;
            Net(ClosePair(w, fd, failure).calls, cell) ==
            Net(w.calls, cell) + Effect(Close(b), cell) + (if failure then Effect(Failure(b), cell) else 0)
  {
    var b, u := w.peers[fd].backendIndex, Severed(w, fd, failure);
    CloseIsSever(w, fd, failure);
    assert u.calls == if failure then w.calls + [Close(b)] + [Failure(b)] else w.calls + [Close(b)];
    NetAppend(w.calls, Close(b), cell);
    if failure {
      NetAppend(w.calls + [Close(b)], Failure(b), cell);
      EjectCounts(u, b, cell);
    }
  }

  lemma ReapOneCounts(w: World, fd: int, connectTimeout: bool, cell: Cell)
    requires fd in w.peers
    ensures var b := w.peers[fd].backendIndex;
            Net(ReapOne(w, fd, connectTimeout).calls, cell) ==
            Net(w.calls, cell) + Effect(Close(b), cell) +
            (if connectTimeout then Effect(ConnectTimeout, cell) + Effect(Failure(b), cell)
             else Effect(IdleTimeout, cell))
  {
    var timeout := if connectTimeout then ConnectTimeout else IdleTimeout;
    NetAppend(w.calls, timeout, cell);
    CloseCounts(Record(w, timeout), fd, connectTimeout, cell);
  }

  /** A reaped client leaves the rest of the list registered. */
  lemma StillReapable(w: World, expired: seq<(int, bool)>)
    requires Inv(w) && expired != [] && Reapable(w, expired)
    ensures Inv(ReapOne(w, expired[0].0, expired[0].1))
    ensures Reapable(ReapOne(w, expired[0].0, expired[0].1), expired[1..])
  {
    ReapOneKeeps(w, expired[0].0, expired[0].1);
    RestReapable(w, ReapOne(w, expired[0].0, expired[0].1), expired) by {
      ReapOneShape(w, expired[0].0, expired[0].1);
    }
  }

  lemma RestReapable(w: World, r: World, expired: seq<(int, bool)>)
    requires Inv(w) && expired != [] && Reapable(w, expired)
    requires r.peers == w.peers - {expired[0].0, w.peers[expired[0].0].pairedFd}
    ensures Reapable(r, expired[1..])
  {
    forall i | 0 <= i < |expired[1..]|
      ensures expired[1..][i].0 in r.peers && !r.peers[expired[1..][i].0].backendSide {
      assert expired[1..][i] == expired[i + 1];
      var k, side := OwnerOf(w, expired[0].0, {});
    }
  }

  /** What reaping a list adds to the counters it moves. */
  function Gain(expired: seq<(int, bool)>, cell: Cell): int
    requires cell in {ConnectTimeouts, IdleTimeouts, Global(Errors), Global(Active)}
  {
    if cell == IdleTimeouts then Flagged(expired, false)
    else if cell == Global(Active) then -|expired|
    else Flagged(expired, true)
  }

  lemma ReapEffect(b: nat, connectTimeout: bool, cell: Cell)
    requires cell in {ConnectTimeouts, IdleTimeouts, Global(Errors), Global(Active)}
    ensures Effect(Close(b), cell) +
            (if connectTimeout then Effect(ConnectTimeout, cell) + Effect(Failure(b), cell)
             else Effect(IdleTimeout, cell))
            == if cell == Global(Active) then -1 else if connectTimeout == (cell != IdleTimeouts) then 1 else 0
  {
  }

  lemma {:induction false} ReapAllCounts(w: World, expired: seq<(int, bool)>, cell: Cell)
    requires Inv(w) && Reapable(w, expired)
    requires cell in {ConnectTimeouts, IdleTimeouts, Global(Errors), Global(Active)}
    ensures Net(ReapAll(w, expired).calls, cell) == Net(w.calls, cell) + Gain(expired, cell)
    decreases |expired|
  {
    if expired == [] {
    } else {
      StillReapable(w, expired);
      ReapOneCounts(w, expired[0].0, expired[0].1, cell);
      ReapEffect(w.peers[expired[0].0].backendIndex, expired[0].1, cell);
      ReapAllCounts(ReapOne(w, expired[0].0, expired[0].1), expired[1..], cell);
    }
  }

  lemma {:induction false} ReapAllRefused(w: World, expired: seq<(int, bool)>)
    requires Inv(w) && Reapable(w, expired)
    ensures var r := ReapAll(w, expired);
            r.refused == w.refused && r.now == w.now && |r.conns| == |w.conns|
    decreases |expired|
  {
    if expired == [] {
    } else {
      StillReapable(w, expired);
      ReapOneShape(w, expired[0].0, expired[0].1);
      ReapAllRefused(ReapOne(w, expired[0].0, expired[0].1), expired[1..]);
    }
  }

  /** What the timer does to connection `k`: it ends with the fate its list entry asks
      for, or it and its peers are left alone. */
  predicate Reaped(w: World, r: World, expired: seq<(int, bool)>, k: nat)
    requires k < |w.conns| == |r.conns|
  {
    var c, d := w.conns[k], r.conns[k];
    if c.fate.Alive? && (c.client.fd, true) in expired then d == c.(fate := Failed)
    else if c.fate.Alive? && (c.client.fd, false) in expired then d == c.(fate := Closed)
    else d == c && (c.fate.Alive? ==> SamePeers(w, r, c))
  }

  predicate SamePeers(w: World, r: World, c: Conn) {
    forall side: bool ::
      var fd := c.Of(side).fd;
      && fd in w.peers && fd in r.peers && r.peers[fd] == w.peers[fd]
      && fd in w.armed && fd in r.armed && r.armed[fd] == w.armed[fd]
  }

  /** Reaping the head of the list, as connection `k` sees it. */
  lemma ReapHead(w: World, expired: seq<(int, bool)>, k: nat)
    requires Inv(w) && expired != [] && Reapable(w, expired) && k < |w.conns|
    ensures var r := ReapOne(w, expired[0].0, expired[0].1);
            && |r.conns| == |w.conns|
            && if w.conns[k].fate.Alive? && w.conns[k].client.fd == expired[0].0
               then r.conns[k] == w.conns[k].(fate := FateOf(expired[0].1))
               else r.conns[k] == w.conns[k] && (w.conns[k].fate.Alive? ==> SamePeers(w, r, w.conns[k]))
  {
    var fd := expired[0].0;
    ReapOneShape(w, fd, expired[0].1);
    var j, side := OwnerOf(w, fd, {});
    if w.conns[k].fate.Alive? {
      assert SideOk(w, k, false) && SideOk(w, k, true);
    }
  }

  lemma {:induction false} ReapAllExact(w: World, expired: seq<(int, bool)>, k: nat)
    requires Inv(w) && Reapable(w, expired) && k < |w.conns|
    ensures |ReapAll(w, expired).conns| == |w.conns|
    ensures Reaped(w, ReapAll(w, expired), expired, k)
    decreases |expired|
  {
    if expired == [] {
      if w.conns[k].fate.Alive? {
        assert SideOk(w, k, false) && SideOk(w, k, true);
      }
    } else {
      var r := ReapOne(w, expired[0].0, expired[0].1);
      StillReapable(w, expired);
      ReapHead(w, expired, k);
      ReapAllExact(r, expired[1..], k);
    }
  }

  // ----- The list of expired clients -----

  predicate Due(w: World, fd: int, connectTimeout: bool) {
    fd in w.peers && !w.peers[fd].backendSide && (if connectTimeout then ConnectExpired(w, fd) else IdleExpired(w, fd))
  }

  /** The list holds the clients that are due, each once, whatever the visiting order. */
  lemma {:induction false} ExpiredListExact(w: World, order: seq<int>)
    requires forall i, j | 0 <= i < j < |order| :: order[i] != order[j]
    ensures forall fd: int, flag: bool :: (fd, flag) in ExpiredList(w, order) <==> fd in order && Due(w, fd, flag)
    ensures Reapable(w, ExpiredList(w, order))
  {
    if order == [] {
    } else {
      ExpiredListExact(w, order[..|order| - 1]);
      OneMoreVisited(w, order[..|order| - 1], order[|order| - 1], order);
    }
  }

  lemma OneMoreVisited(w: World, front: seq<int>, last: int, order: seq<int>)
    requires order == front + [last] && last !in front
    requires forall fd: int, flag: bool :: (fd, flag) in ExpiredList(w, front) <==> fd in front && Due(w, fd, flag)
    requires Reapable(w, ExpiredList(w, front))
    ensures forall fd: int, flag: bool :: (fd, flag) in ExpiredList(w, order) <==> fd in order && Due(w, fd, flag)
    ensures Reapable(w, ExpiredList(w, order))
  {
    var rest := ExpiredList(w, front);
    assert order[..|order| - 1] == front;
    forall i | 0 <= i < |rest| ensures rest[i].0 != last {
      var fd, flag := rest[i].0, rest[i].1;
      assert rest[i] == (fd, flag);
      assert (fd, flag) in rest;
    }
  }

  /** What the timer does to connection `k`: failed if its backend is still connecting when
      the connect timeout has passed since it was opened, closed if it is connected and for
      the whole idle timeout no byte was read from either side or written to the client,
      and otherwise untouched. */
  predicate TimerVerdict(w: World, r: World, k: nat)
    requires k < |w.conns| == |r.conns|
  {
    var c, now := w.conns[k], NextTime(w);
    && (!c.fate.Alive? ==> r.conns[k] == c)
    && (c.fate.Alive? ==>
          && c.client.fd in w.peers && c.backend.fd in w.peers
          && var expired := if w.peers[c.backend.fd].connecting then c.openedAt + w.cfg.connectTimeout <= now
                            else LastTraffic(c.client, c.backend) + w.cfg.idleTimeout <= now;
             if expired then r.conns[k] == c.(fate := if w.peers[c.backend.fd].connecting then Failed else Closed)
             else r.conns[k] == c && SamePeers(w, r, c))
  }

  /** What the timer never does: it makes no connection and refuses none, and it reads the
      clock once. */
  lemma ReapLeaves(w: World, order: seq<int>)
    requires Inv(w) && Visits(order, w.peers.Keys)
    ensures var r := ReapTimeouts(w, order);
            r.refused == w.refused && r.now == NextTime(w) && |r.conns| == |w.conns|
  {
    AdvanceKeeps(w, Tick(w), {});
    ExpiredListExact(Tick(w), order);
    ReapAllRefused(Tick(w), ExpiredList(Tick(w), order));
  }

  /** Exactness of the timer: it reads the clock once, and decides about every connection by
      that time, in any visiting order. */
  lemma ReapExact(w: World, order: seq<int>, k: nat)
    requires Inv(w) && Visits(order, w.peers.Keys) && k < |w.conns|
    ensures var r := ReapTimeouts(w, order);
            r.now == NextTime(w) && |r.conns| == |w.conns| && TimerVerdict(w, r, k)
  {
    ReapLeaves(w, order);
    var t := Tick(w);
    AdvanceKeeps(w, t, {});
    ExpiredListExact(t, order);
    ReapAllExact(t, ExpiredList(t, order), k);
    var c := w.conns[k];
    if c.fate.Alive? {
      assert SideOk(t, k, false) && SideOk(t, k, true);
    }
  }

  /** The two timeout counters rise by exactly what was removed, the error counter by
      exactly the connect timeouts. */
  lemma ReapCounters(w: World, order: seq<int>)
    requires Inv(w) && Visits(order, w.peers.Keys)
    ensures var r := ReapTimeouts(w, order);
            var connect := Net(r.calls, ConnectTimeouts) - Net(w.calls, ConnectTimeouts);
            var idle := Net(r.calls, IdleTimeouts) - Net(w.calls, IdleTimeouts);
            && connect == Net(r.calls, Global(Errors)) - Net(w.calls, Global(Errors))
            && connect == SumBooked(r.conns, Global(Errors)) - SumBooked(w.conns, Global(Errors))
            && connect + idle == SumBooked(w.conns, Global(Active)) - SumBooked(r.conns, Global(Active))
  {
    var t := Tick(w);
    AdvanceKeeps(w, t, {});
    ExpiredListExact(t, order);
    var list := ExpiredList(t, order);
    ReapAllCounts(t, list, ConnectTimeouts);
    ReapAllCounts(t, list, IdleTimeouts);
    ReapAllCounts(t, list, Global(Errors));
    ReapAllCounts(t, list, Global(Active));
    ReapAllRefused(t, list);
    FlaggedTotal(list);
    ReapKeeps(w, order);
    assert Counted(Global(Errors)) && Counted(Global(Active));
  }

  /** A connection over which a byte was read, in either direction, within the idle
      timeout is never reaped as idle. */
  lemma ActiveSurvives(w: World, order: seq<int>, k: nat)
    requires Inv(w) && Visits(order, w.peers.Keys) && k < |w.conns| && w.conns[k].fate.Alive?
    requires || w.conns[k].client.lastRead + w.cfg.idleTimeout > NextTime(w)
             || w.conns[k].backend.lastRead + w.cfg.idleTimeout > NextTime(w)
    ensures k < |ReapTimeouts(w, order).conns| && !ReapTimeouts(w, order).conns[k].fate.Closed?
  {
    ReapExact(w, order, k);
    assert SideOk(w, k, false);
  }

  /** Shutting down blames no backend. */
  lemma {:induction false} ShutdownBlamesNobody(w: World, order: seq<int>)
    ensures Net(CloseAll(w, order).calls, Global(Errors)) == Net(w.calls, Global(Errors))
    decreases |order|
  {
    if order == [] {
    } else {
      if order[0] in w.peers {
        CloseCounts(w, order[0], false, Global(Errors));
      }
      ShutdownBlamesNobody(ClosePair(w, order[0], false), order[1..]);
    }
  }
}
