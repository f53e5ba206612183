/** Each elementary change of a worker's state keeps the invariant. */
module Steps {
  import opened Calls
  import opened Outcomes
  import opened Engine
  import opened Invariant

  // ----- Changes that touch no connection -----

  /** Time passes and answers are consumed. */
  predicate OnlyAdvances(w: World, w': World) {
    && w.now <= w'.now
    && w' == w.(now := w'.now, ticks := w'.ticks, readAnswers := w'.readAnswers, writeAnswers := w'.writeAnswers,
                connectAnswers := w'.connectAnswers, ejectAnswers := w'.ejectAnswers, acceptAnswers := w'.acceptAnswers)
  }

  lemma AdvanceKeeps(w: World, w': World, except: set<int>)
    requires InvExcept(w, except) && OnlyAdvances(w, w')
    ensures InvExcept(w', except) && Evolves(w, w', {})
  {
    forall fd | fd in w'.peers ensures OwnerOk(w', fd) { assert OwnerOk(w, fd); }
    forall k: nat, side: bool | k < |w'.conns| && w'.conns[k].fate.Alive? ensures SideOk(w', k, side) {
      assert SideOk(w, k, side);
    }
    forall k: nat, side: bool | k < |w'.conns| && w'.conns[k].fate.Alive? && w'.conns[k].Of(side).fd !in except
      ensures ArmOk(w', k, side) {
      assert ArmOk(w, k, side);
    }
    SameConnsEvolve(w, w');
  }

  /** A change that leaves peers and connections alone. */
  lemma SameConnsEvolve(w: World, w': World)
    requires InvExcept(w, w.owner.Keys)
    requires w'.peers == w.peers && w'.conns == w.conns && w'.cfg == w.cfg && w.now <= w'.now && w.calls <= w'.calls
    ensures Evolves(w, w', {})
  {
    forall k: nat, side: bool | k < |w'.conns| ensures BufferEvolves(w, w', k, side, {}) {}
  }

  predicate Neutral(call: Call) {
    call.Latency? || call.Healthy? || call.Eject? || call.ConnectTimeout? || call.IdleTimeout?
  }

  lemma RecordKeepsBooks(w: World, call: Call)
    requires Books(w) && Neutral(call)
    requires call.Eject? ==> JustFailed(w.calls, call.index)
    requires call.Latency? || call.Healthy? || call.Eject? ==> call.index < w.cfg.backendCount
    ensures Books(Record(w, call))
  {
    DisciplinedAppend(w.calls, call);
    forall cell | Counted(cell)
      ensures Net(w.calls + [call], cell) == SumBooked(w.conns, cell) + SumRefused(w.refused, cell) {
      NetAppend(w.calls, call, cell);
    }
  }

  lemma RecordKeeps(w: World, call: Call, except: set<int>)
    requires InvExcept(w, except) && Neutral(call)
    requires call.Eject? ==> JustFailed(w.calls, call.index)
    requires call.Latency? || call.Healthy? || call.Eject? ==> call.index < w.cfg.backendCount
    ensures InvExcept(Record(w, call), except) && Evolves(w, Record(w, call), {})
  {
    var w' := Record(w, call);
    RecordKeepsBooks(w, call);
    forall fd | fd in w'.peers ensures OwnerOk(w', fd) { assert OwnerOk(w, fd); }
    forall k: nat, side: bool | k < |w'.conns| && w'.conns[k].fate.Alive? ensures SideOk(w', k, side) {
      assert SideOk(w, k, side);
    }
    forall k: nat, side: bool | k < |w'.conns| && w'.conns[k].fate.Alive? && w'.conns[k].Of(side).fd !in except
      ensures ArmOk(w', k, side) {
      assert ArmOk(w, k, side);
    }
    SameConnsEvolve(w, w');
  }

  lemma EjectKeeps(w: World, b: nat, except: set<int>)
    requires InvExcept(w, except) && b < w.cfg.backendCount && JustFailed(w.calls, b)
    ensures InvExcept(MaybeEject(w, b), except) && Evolves(w, MaybeEject(w, b), {})
  {
    if w.ejectAnswers == [] {
      EvolvesRefl(w, {});
    } else {
      var v := w.(ejectAnswers := w.ejectAnswers[1..]);
      AdvanceKeeps(w, v, except);
      if w.ejectAnswers[0] {
        RecordKeeps(v, Eject(b), except);
        EvolvesTrans(w, v, MaybeEject(w, b), {});
      }
    }
  }

  // ----- Interest -----

  /** Refreshing a descriptor's interest makes it right and leaves the others as they were. */
  lemma ModifyArms(w: World, fd: int, except: set<int>, k: nat, side: bool)
    requires InvExcept(w, except) && k < |w.conns| && w.conns[k].fate.Alive?
    requires w.conns[k].Of(side).fd !in except - {fd}
    ensures ArmOk(ModifyFd(w, fd), k, side)
  {
    assert SideOk(w, k, side) && SideOk(w, k, !side);
    if w.conns[k].Of(side).fd != fd {
      assert ArmOk(w, k, side);
    }
  }

  lemma ModifyLinks(w: World, fd: int)
    requires Sockets(w) && Owners(w) && Links(w)
    ensures Sockets(ModifyFd(w, fd)) && Owners(ModifyFd(w, fd)) && Links(ModifyFd(w, fd))
  {
    var w' := ModifyFd(w, fd);
    forall x | x in w'.peers ensures OwnerOk(w', x) { assert OwnerOk(w, x); }
    forall k: nat, side: bool | k < |w'.conns| && w'.conns[k].fate.Alive? ensures SideOk(w', k, side) {
      assert SideOk(w, k, side);
    }
  }

  lemma ModifyKeeps(w: World, fd: int, except: set<int>)
    requires InvExcept(w, except)
    ensures InvExcept(ModifyFd(w, fd), except - {fd}) && Evolves(w, ModifyFd(w, fd), {})
  {
    var w' := ModifyFd(w, fd);
    ModifyLinks(w, fd);
    forall k: nat, side: bool | k < |w'.conns| && w'.conns[k].fate.Alive? && w'.conns[k].Of(side).fd !in except - {fd}
      ensures ArmOk(w', k, side) {
      ModifyArms(w, fd, except, k, side);
    }
    SameConnsEvolve(w, w');
  }

  // ----- Closing -----

  /** The state after both sockets of connection `k` are closed. */
  predicate Unlinked(w: World, w': World, k: nat, fate: Fate)
    requires k < |w.conns|
  {
    var a, b := w.conns[k].client.fd, w.conns[k].backend.fd;
    && !fate.Alive?
    && w'.peers == w.peers - {a, b} && w'.armed == w.armed - {a, b} && w'.owner == w.owner - {a, b}
    && w'.conns == w.conns[k := w.conns[k].(fate := fate)]
    && w'.cfg == w.cfg && w'.now == w.now && w'.refused == w.refused
  }

  lemma UnlinkKeeps(w: World, w': World, k: nat, fate: Fate, except: set<int>)
    requires InvExcept(w, except) && k < |w.conns| && w.conns[k].fate.Alive?
    requires Unlinked(w, w', k, fate) && w.calls <= w'.calls
    requires Holding(w') && Books(w')
    ensures InvExcept(w', except) && Evolves(w, w', {})
    ensures except <= {w.conns[k].client.fd, w.conns[k].backend.fd} ==> Inv(w')
  {
    assert SideOk(w, k, false) && SideOk(w, k, true);
    forall fd | fd in w'.peers ensures OwnerOk(w', fd) {
      assert OwnerOk(w, fd);
    }
    forall j: nat, side: bool | j < |w'.conns| && w'.conns[j].fate.Alive?
      ensures SideOk(w', j, side) {
      assert SideOk(w, j, side);
    }
    forall j: nat, side: bool | j < |w'.conns| && w'.conns[j].fate.Alive? && w'.conns[j].Of(side).fd !in except
      ensures ArmOk(w', j, side) {
      assert SideOk(w, j, side) && ArmOk(w, j, side);
    }
    assert EndedOk(w'.conns[k]) by { EndedPrefixes(w, k); }
    if except <= {w.conns[k].client.fd, w.conns[k].backend.fd} {
      forall j: nat, side: bool | j < |w'.conns| && w'.conns[j].fate.Alive? ensures ArmOk(w', j, side) {
        assert SideOk(w', j, side);
      }
    }
    UnlinkEvolves(w, w', k, fate, except);
  }

  lemma EndedPrefixes(w: World, k: nat)
    requires Links(w) && k < |w.conns| && w.conns[k].fate.Alive?
    ensures EndedOk(w.conns[k])
  {
    assert SideOk(w, k, false) && SideOk(w, k, true);
  }

  lemma UnlinkEvolves(w: World, w': World, k: nat, fate: Fate, except: set<int>)
    requires InvExcept(w, except) && k < |w.conns| && w.conns[k].fate.Alive?
    requires Unlinked(w, w', k, fate) && w.calls <= w'.calls
    ensures Evolves(w, w', {})
  {
    forall j: nat | j < |w.conns| ensures ConnEvolves(w.conns[j], w'.conns[j], {}) {}
    forall j: nat, side: bool | j < |w'.conns| ensures BufferEvolves(w, w', j, side, {}) {}
  }

  lemma ReleaseAppend(log: seq<SocketOp>, fd: int, open: set<int>)
    requires OpenAfter(log) == Some(open) && fd in open
    ensures OpenAfter(log + [Release(fd)]) == Some(open - {fd})
  {
    assert (log + [Release(fd)])[..|log|] == log;
  }

  lemma ObtainAppend(log: seq<SocketOp>, fd: int, open: set<int>)
    requires OpenAfter(log) == Some(open) && fd !in open
    ensures OpenAfter(log + [Obtain(fd)]) == Some(open + {fd})
  {
    assert (log + [Obtain(fd)])[..|log|] == log;
  }

  lemma ClosedBooked(c: Conn, failed: bool, cell: Cell)
    requires c.fate.Alive?
    ensures Booked(c.(fate := if failed then Failed else Closed), cell) ==
            Booked(c, cell) + Effect(Close(c.index), cell) + (if failed then Effect(Failure(c.index), cell) else 0)
  {
  }

  /** The counters after a connection has ended, with its failure recorded if it failed. */
  lemma CloseBooks(w: World, k: nat, failed: bool, w': World)
    requires Books(w) && k < |w.conns| && w.conns[k].fate.Alive? && w.conns[k].index < w.cfg.backendCount
    requires w'.cfg == w.cfg && w'.refused == w.refused
    requires w'.conns == w.conns[k := w.conns[k].(fate := if failed then Failed else Closed)]
    requires var b := w.conns[k].index;
             w'.calls == if failed then w.calls + [Close(b)] + [Failure(b)] else w.calls + [Close(b)]
    ensures Books(w')
  {
    var b := w.conns[k].index;
    SumBookedAtLeast(w.conns, k, PerBackend(Active, b));
    assert Counted(PerBackend(Active, b));
    DisciplinedAppend(w.calls, Close(b));
    DisciplinedAppend(w.calls + [Close(b)], Failure(b));
    forall cell | Counted(cell)
      ensures Net(w'.calls, cell) == SumBooked(w'.conns, cell) + SumRefused(w'.refused, cell) {
      NetAppend(w.calls, Close(b), cell);
      NetAppend(w.calls + [Close(b)], Failure(b), cell);
      SumBookedUpdate(w.conns, k, w'.conns[k], cell);
      ClosedBooked(w.conns[k], failed, cell);
    }
  }

  /** The state after the sockets of a pair are closed and the close is recorded. */
  function Severed(w: World, fd: int, backendFailure: bool): World
    requires fd in w.peers
  {
    var p := w.peers[fd];
    var retired := Retire(w, fd, if backendFailure then Failed else Closed);
    var closed := Record(CloseOne(CloseOne(retired, fd), p.pairedFd), Close(p.backendIndex));
    if backendFailure then Record(closed, Failure(p.backendIndex)) else closed
  }

  lemma SeveredMaps(w: World, fd: int, backendFailure: bool)
    requires fd in w.peers && w.peers[fd].pairedFd in w.peers && w.peers[fd].pairedFd != fd
    ensures var u, pair := Severed(w, fd, backendFailure), {fd, w.peers[fd].pairedFd};
            u.peers == w.peers - pair && u.armed == w.armed - pair && u.owner == w.owner - pair
  {
    var q := w.peers[fd].pairedFd;
    assert w.peers - {fd} - {q} == w.peers - {fd, q};
    assert w.armed - {fd} - {q} == w.armed - {fd, q};
    assert w.owner - {fd} - {q} == w.owner - {fd, q};
  }

  lemma SeveredLog(w: World, fd: int, backendFailure: bool)
    requires fd in w.peers && w.peers[fd].pairedFd in w.peers && w.peers[fd].pairedFd != fd
    ensures var u := Severed(w, fd, backendFailure);
            u.sockets == w.sockets + [Release(fd)] + [Release(w.peers[fd].pairedFd)] && u.cfg == w.cfg
  {
  }

  lemma BothReleased(log: seq<SocketOp>, keys: set<int>, own: set<int>, a: int, b: int)
    requires OpenAfter(log) == Some(keys + own) && a in keys && b in keys && a != b && a !in own && b !in own
    ensures OpenAfter(log + [Release(a)] + [Release(b)]) == Some(keys - {a, b} + own)
  {
    ReleaseAppend(log, a, keys + own);
    ReleaseAppend(log + [Release(a)], b, keys + own - {a});
    assert keys + own - {a} - {b} == keys - {a, b} + own;
  }

  lemma SeveredSockets(w: World, fd: int, backendFailure: bool)
    requires Sockets(w) && fd in w.peers && w.peers[fd].pairedFd in w.peers && w.peers[fd].pairedFd != fd
    ensures Holding(Severed(w, fd, backendFailure))
  {
    var u, q := Severed(w, fd, backendFailure), w.peers[fd].pairedFd;
    SeveredMaps(w, fd, backendFailure);
    SeveredLog(w, fd, backendFailure);
    BothReleased(w.sockets, w.peers.Keys, Own(w.cfg), fd, q);
    assert u.peers.Keys == w.peers.Keys - {fd, q};
  }

  lemma SeveredShape(w: World, fd: int, backendFailure: bool, k: nat, side: bool)
    requires Sockets(w) && k < |w.conns| && w.conns[k].fate.Alive? && SideOk(w, k, side) && SideOk(w, k, !side)
    requires fd == w.conns[k].Of(side).fd
    ensures var u := Severed(w, fd, backendFailure);
            Unlinked(w, u, k, if backendFailure then Failed else Closed) && Holding(u)
  {
    SeveredMaps(w, fd, backendFailure);
    SeveredSockets(w, fd, backendFailure);
    assert {fd, w.peers[fd].pairedFd} == {w.conns[k].client.fd, w.conns[k].backend.fd};
  }

  lemma SeveredKeeps(w: World, fd: int, backendFailure: bool, except: set<int>)
    requires InvExcept(w, except) && fd in w.peers
    ensures InvExcept(Severed(w, fd, backendFailure), except)
    ensures Evolves(w, Severed(w, fd, backendFailure), {})
    ensures except <= {fd, w.peers[fd].pairedFd} ==> Inv(Severed(w, fd, backendFailure))
    ensures fd !in Severed(w, fd, backendFailure).peers
  {
    var k, side := OwnerOf(w, fd, except);
    SeveredShape(w, fd, backendFailure, k, side);
    var u := Severed(w, fd, backendFailure);
    assert {fd, w.peers[fd].pairedFd} == {w.conns[k].client.fd, w.conns[k].backend.fd};
    CloseBooks(w, k, backendFailure, u);
    UnlinkKeeps(w, u, k, if backendFailure then Failed else Closed, except);
  }

  /** The ejection test that follows a failure just recorded. */
  lemma EjectAfterSever(w: World, u: World, b: nat, except: set<int>, narrow: bool)
    requires InvExcept(u, except) && Evolves(w, u, {}) && b < u.cfg.backendCount && JustFailed(u.calls, b)
    requires narrow ==> Inv(u)
    ensures InvExcept(MaybeEject(u, b), except) && Evolves(w, MaybeEject(u, b), {})
    ensures narrow ==> Inv(MaybeEject(u, b))
  {
    EjectKeeps(u, b, except);
    if narrow {
      EjectKeeps(u, b, {});
    }
    EvolvesTrans(w, u, MaybeEject(u, b), {});
  }

  lemma ClosePairKeeps(w: World, fd: int, backendFailure: bool, except: set<int>)
    requires InvExcept(w, except) && fd in w.peers
    ensures InvExcept(ClosePair(w, fd, backendFailure), except)
    ensures Evolves(w, ClosePair(w, fd, backendFailure), {})
    ensures except <= {fd, w.peers[fd].pairedFd} ==> Inv(ClosePair(w, fd, backendFailure))
    ensures fd !in ClosePair(w, fd, backendFailure).peers
  {
    var k, side := OwnerOf(w, fd, except);
    var u, b := Severed(w, fd, backendFailure), w.peers[fd].backendIndex;
    SeveredKeeps(w, fd, backendFailure, except);
    CloseIsSever(w, fd, backendFailure);
    if backendFailure {
      EjectAfterSever(w, u, b, except, except <= {fd, w.peers[fd].pairedFd});
    }
  }

  /** Closing a pair is severing it, and testing for ejection after a failure. */
  lemma CloseIsSever(w: World, fd: int, failure: bool)
    requires fd in w.peers
    ensures var u, b := Severed(w, fd, failure), w.peers[fd].backendIndex;
            && ClosePair(w, fd, failure) == (if failure then MaybeEject(u, b) else u)
            && (failure ==> JustFailed(u.calls, b)) && u.cfg == w.cfg
  {
  }

  // ----- Changes inside one connection -----

  /** Only the two peers and the record of connection `k` differ. */
  predicate Local(w: World, w': World, k: nat)
    requires k < |w.conns|
  {
    var c := w.conns[k];
    && w'.cfg == w.cfg && w'.armed == w.armed && w'.owner == w.owner
    && w'.sockets == w.sockets && w'.refused == w.refused && w.now <= w'.now && w.calls <= w'.calls
    && w'.peers.Keys == w.peers.Keys
    && |w'.conns| == |w.conns| && w'.conns == w.conns[k := w'.conns[k]]
    && w'.conns[k].index == c.index && w'.conns[k].openedAt == c.openedAt && w'.conns[k].client.fd == c.client.fd
    && w'.conns[k].backend.fd == c.backend.fd && w'.conns[k].fate == c.fate
  }

  ghost predicate OthersSame(w: World, w': World, a: int, b: int)
    requires w'.peers.Keys == w.peers.Keys
  {
    forall fd | fd in w.peers && fd != a && fd != b :: w'.peers[fd] == w.peers[fd]
  }

  lemma LocalOwners(w: World, w': World, k: nat)
    requires Owners(w) && Links(w) && k < |w.conns| && w.conns[k].fate.Alive?
    requires Local(w, w', k) && OthersSame(w, w', w.conns[k].client.fd, w.conns[k].backend.fd)
    requires SideOk(w', k, false) && SideOk(w', k, true)
    ensures Owners(w')
  {
    forall fd | fd in w'.peers ensures OwnerOk(w', fd) {
      assert OwnerOk(w, fd);
      assert SideOk(w, k, false) && SideOk(w, k, true);
    }
  }

  lemma LocalLinks(w: World, w': World, k: nat, except: set<int>, except': set<int>)
    requires Links(w) && Arms(w, except) && k < |w.conns| && w.conns[k].fate.Alive?
    requires Local(w, w', k) && OthersSame(w, w', w.conns[k].client.fd, w.conns[k].backend.fd)
    requires SideOk(w', k, false) && SideOk(w', k, true)
    requires except <= except'
    requires forall side: bool :: w.conns[k].Of(side).fd !in except' ==> ArmOk(w', k, side)
    ensures Links(w') && Arms(w', except')
  {
    forall j: nat, side: bool | j < |w'.conns| && w'.conns[j].fate.Alive?
      ensures SideOk(w', j, side) && (w'.conns[j].Of(side).fd !in except' ==> ArmOk(w', j, side)) {
      if j != k {
        assert SideOk(w, j, side) && SideOk(w, j, !side);
        assert SideOk(w, k, side) && SideOk(w, k, !side);
      }
    }
  }

  lemma LocalEvolves(w: World, w': World, k: nat, from: set<int>)
    requires Links(w) && k < |w.conns| && w.conns[k].fate.Alive?
    requires Local(w, w', k) && OthersSame(w, w', w.conns[k].client.fd, w.conns[k].backend.fd)
    requires forall side :: ReadsEvolve(w.conns[k].Of(side), w'.conns[k].Of(side), from)
    requires forall side: bool :: BufferEvolves(w, w', k, side, from)
    ensures Evolves(w, w', from)
  {
    assert SideOk(w, k, false) && SideOk(w, k, true);
    forall j: nat, side: bool | j < |w'.conns| ensures BufferEvolves(w, w', j, side, from) {
      if j != k && w.conns[j].fate.Alive? {
        assert SideOk(w, j, side);
      }
    }
    forall j: nat | j < |w.conns| ensures ConnEvolves(w.conns[j], w'.conns[j], from) {}
  }

  lemma LocalKeeps(w: World, w': World, k: nat, except: set<int>, except': set<int>, from: set<int>)
    requires InvExcept(w, except) && k < |w.conns| && w.conns[k].fate.Alive?
    requires Local(w, w', k) && OthersSame(w, w', w.conns[k].client.fd, w.conns[k].backend.fd)
    requires Books(w')
    requires SideOk(w', k, false) && SideOk(w', k, true)
    requires except <= except'
    requires forall side: bool :: w.conns[k].Of(side).fd !in except' ==> ArmOk(w', k, side)
    requires forall side :: ReadsEvolve(w.conns[k].Of(side), w'.conns[k].Of(side), from)
    requires forall side: bool :: BufferEvolves(w, w', k, side, from)
    ensures InvExcept(w', except') && Evolves(w, w', from)
  {
    LocalOwners(w, w', k);
    LocalLinks(w, w', k, except, except');
    LocalEvolves(w, w', k, from);
  }

  lemma SameBooks(w: World, w': World, k: nat)
    requires Books(w) && k < |w.conns| && k < |w'.conns|
    requires w'.conns == w.conns[k := w'.conns[k]]
    requires w'.conns[k].index == w.conns[k].index && w'.conns[k].fate == w.conns[k].fate
    requires w'.conns[k].client.received == w.conns[k].client.received
    requires w'.conns[k].backend.received == w.conns[k].backend.received
    requires w'.cfg == w.cfg && w'.refused == w.refused && w'.calls == w.calls
    ensures Books(w')
  {
    forall cell | Counted(cell)
      ensures Net(w'.calls, cell) == SumBooked(w'.conns, cell) + SumRefused(w'.refused, cell) {
      SumBookedUpdate(w.conns, k, w'.conns[k], cell);
    }
  }

  /** What a write does to the peer and to the record of the connection. */
  lemma SentShape(w: World, fd: int, n: nat, k: nat, side: bool)
    requires k < |w.conns| && SideOk(w, k, side) && SideOk(w, k, !side)
    requires fd == w.conns[k].Of(side).fd && n > 0 && w.peers[fd].sent + n <= |w.peers[fd].outbound|
    ensures var w', p, e := Sent(w, fd, n), w.peers[fd], w.conns[k].Of(side);
            && w.now <= w'.now && w' == w.(now := w'.now, ticks := w'.ticks, peers := w'.peers, conns := w'.conns)
            && w'.peers == w.peers[fd := w'.peers[fd]]
            && w'.peers[fd] == p.(lastActivity := w'.now, outbound := w'.peers[fd].outbound, sent := w'.peers[fd].sent)
            && w'.conns == w.conns[k := w.conns[k].With(side,
                 End(fd, e.received, e.delivered + p.outbound[p.sent..p.sent + n], e.lastRead, w'.now))]
  {
    var e := w.conns[k].Of(side);
    assert e.received + [] == e.received;
  }

  lemma SentBytes(w: World, fd: int, n: nat)
    requires fd in w.peers && n > 0 && w.peers[fd].sent + n <= |w.peers[fd].outbound|
    ensures var p, q := w.peers[fd], Sent(w, fd, n).peers[fd];
            && Pending(p) == p.outbound[p.sent..p.sent + n] + Pending(q)
            && (q.sent < |q.outbound| || (q.sent == 0 && q.outbound == []))
            && (p.sent + n < |p.outbound| ==> q.outbound == p.outbound)
            && Drained(p, q) && |q.outbound| <= |p.outbound|
  {
    var p := w.peers[fd];
    assert p.outbound[p.sent..] == p.outbound[p.sent..p.sent + n] + p.outbound[p.sent + n..];
  }

  /** After a write, both sockets of the connection are as required. */
  lemma SentSides(w: World, fd: int, n: nat, k: nat, side: bool)
    requires k < |w.conns| && w.conns[k].fate.Alive? && SideOk(w, k, side) && SideOk(w, k, !side)
    requires fd == w.conns[k].Of(side).fd && n > 0 && w.peers[fd].sent + n <= |w.peers[fd].outbound|
    ensures var w' := Sent(w, fd, n);
            && w'.conns == w.conns[k := w'.conns[k]]
            && SideOk(w', k, side) && SideOk(w', k, !side)
            && ReadsEvolve(w.conns[k].Of(side), w'.conns[k].Of(side), {})
            && w'.conns[k].Of(!side) == w.conns[k].Of(!side)
  {
    SentShape(w, fd, n, k, side);
    SentTarget(w, fd, n, k, side);
  }

  lemma SentTarget(w: World, fd: int, n: nat, k: nat, side: bool)
    requires k < |w.conns| && w.conns[k].fate.Alive? && SideOk(w, k, side) && SideOk(w, k, !side)
    requires fd == w.conns[k].Of(side).fd && n > 0 && w.peers[fd].sent + n <= |w.peers[fd].outbound|
    ensures SideOk(Sent(w, fd, n), k, side)
  {
    SentShape(w, fd, n, k, side);
    SentBytes(w, fd, n);
    WrittenSide(w, Sent(w, fd, n), k, side, w.peers[fd].outbound[w.peers[fd].sent..w.peers[fd].sent + n]);
  }

  /** A socket after `piece` has moved from its buffer to its delivered history. */
  lemma WrittenSide(w: World, w': World, k: nat, side: bool, piece: seq<byte>)
    requires k < |w.conns| && SideOk(w, k, side) && SideOk(w, k, !side)
    requires w.now <= w'.now && w' == w.(now := w'.now, ticks := w'.ticks, peers := w'.peers, conns := w'.conns)
    requires var e := w.conns[k].Of(side);
             w'.conns == w.conns[k := w.conns[k].With(side,
               End(e.fd, e.received, e.delivered + piece, e.lastRead, w'.now))]
    requires var fd := w.conns[k].Of(side).fd;
             && fd in w'.peers && w'.peers == w.peers[fd := w'.peers[fd]]
             && var p, q := w.peers[fd], w'.peers[fd];
             && q == p.(lastActivity := w'.now, outbound := q.outbound, sent := q.sent)
             && Pending(p) == piece + Pending(q) && |q.outbound| <= |p.outbound|
             && (q.sent < |q.outbound| || (q.sent == 0 && q.outbound == []))
    ensures SideOk(w', k, side)
  {
    var e, q := w.conns[k].Of(side), w'.peers[w.conns[k].Of(side).fd];
    assert e.delivered + (piece + Pending(q)) == (e.delivered + piece) + Pending(q);
  }

  /** A write moves bytes from the buffer to the delivered history.  Unless the buffer
      went out whole, every registered interest stays right. */
  lemma SentKeeps(w: World, fd: int, n: nat, except: set<int>)
    requires InvExcept(w, except) && fd in w.peers && !w.peers[fd].connecting
    requires n > 0 && w.peers[fd].sent + n <= |w.peers[fd].outbound|
    ensures var w' := Sent(w, fd, n);
            && (w.peers[fd].sent + n < |w.peers[fd].outbound| ==> InvExcept(w', except))
            && InvExcept(w', except + {w.peers[fd].pairedFd})
            && Evolves(w, w', {})
  {
    var w' := Sent(w, fd, n);
    var k, side := OwnerOf(w, fd, except);
    SentSides(w, fd, n, k, side);
    SameBooks(w, w', k);
    var partial := w.peers[fd].sent + n < |w.peers[fd].outbound|;
    var except' := if partial then except else except + {w.peers[fd].pairedFd};
    SentArms(w, fd, n, k, side, except, except');
    assert BufferEvolves(w, w', k, side, {}) && BufferEvolves(w, w', k, !side, {});
    LocalKeeps(w, w', k, except, except', {});
    if partial {
      Loosen(w', except, except + {w.peers[fd].pairedFd});
    }
  }

  lemma SentArms(w: World, fd: int, n: nat, k: nat, side: bool, except: set<int>, except': set<int>)
    requires InvExcept(w, except) && except <= except' && k < |w.conns| && w.conns[k].fate.Alive?
    requires fd == w.conns[k].Of(side).fd && fd in w.peers && !w.peers[fd].connecting
    requires n > 0 && w.peers[fd].sent + n <= |w.peers[fd].outbound|
    requires w.peers[fd].sent + n == |w.peers[fd].outbound| ==> w.peers[fd].pairedFd in except'
    ensures forall s: bool :: w.conns[k].Of(s).fd !in except' ==> ArmOk(Sent(w, fd, n), k, s)
  {
    var w' := Sent(w, fd, n);
    assert SideOk(w, k, side) && SideOk(w, k, !side);
    SentSides(w, fd, n, k, side);
    if w.conns[k].Of(side).fd !in except' {
      assert ArmOk(w, k, side);
      assert ArmOk(w', k, side);
    }
    if w.conns[k].Of(!side).fd !in except' {
      assert ArmOk(w, k, !side);
      assert ArmOk(w', k, !side);
    }
  }

  lemma Loosen(w: World, except: set<int>, except': set<int>)
    requires InvExcept(w, except) && except <= except'
    ensures InvExcept(w, except')
  {
  }

  /** The flushed state when there is nothing to write. */
  lemma EmptiedIsSame(w: World, fd: int, except: set<int>)
    requires InvExcept(w, except) && fd in w.peers && w.peers[fd].sent >= |w.peers[fd].outbound|
    ensures w.(peers := w.peers[fd := w.peers[fd].(outbound := [], sent := 0)]) == w
  {
    var k, side := OwnerOf(w, fd, except);
    assert w.peers[fd] == w.peers[fd].(outbound := [], sent := 0);
    assert w.peers[fd := w.peers[fd]] == w.peers;
  }

  lemma ReceivedBooked(c: Conn, side: bool, e: End, n: nat, cell: Cell)
    requires |e.received| == |c.Of(side).received| + n
    ensures Booked(c.With(side, e), cell) ==
            Booked(c, cell) + Effect(if side then FromBackend(c.index, n) else FromClient(c.index, n), cell)
  {
  }

  lemma ReceivedBooks(w: World, k: nat, side: bool, e: End, n: nat, w': World)
    requires Books(w) && k < |w.conns| && w.conns[k].index < w.cfg.backendCount
    requires w'.cfg == w.cfg && w'.refused == w.refused
    requires w'.conns == w.conns[k := w.conns[k].With(side, e)]
    requires |e.received| == |w.conns[k].Of(side).received| + n
    requires var b := w.conns[k].index;
             w'.calls == w.calls + [if side then FromBackend(b, n) else FromClient(b, n)]
    ensures Books(w')
  {
    var b := w.conns[k].index;
    var call := if side then FromBackend(b, n) else FromClient(b, n);
    DisciplinedAppend(w.calls, call);
    var c' := w.conns[k].With(side, e);
    forall cell | Counted(cell)
      ensures Net(w'.calls, cell) == SumBooked(w'.conns, cell) + SumRefused(w'.refused, cell) {
      NetAppend(w.calls, call, cell);
      SumBookedUpdate(w.conns, k, c', cell);
      ReceivedBooked(w.conns[k], side, e, n, cell);
    }
  }

  /** What a read does to the two peers and to the record of the connection. */
  lemma ReceivedShape(w: World, fd: int, chunk: Chunk, k: nat, side: bool)
    requires k < |w.conns| && SideOk(w, k, side) && SideOk(w, k, !side)
    requires fd == w.conns[k].Of(side).fd
    ensures var w', p, e := Received(w, fd, chunk), w.peers[fd], w.conns[k].Of(side);
            var q := w.peers[p.pairedFd];
            && w.now <= w'.now
            && w'.owner == w.owner && w'.cfg == w.cfg
            && w'.peers == w.peers[fd := p.(lastActivity := w'.now)]
                           [p.pairedFd := q.(lastActivity := w'.now, outbound := q.outbound + chunk)]
            && w'.conns == w.conns[k := w.conns[k].With(side,
                 End(fd, e.received + chunk, e.delivered, w'.now, e.lastWrite))]
  {
    var e := w.conns[k].Of(side);
    assert e.delivered + [] == e.delivered;
  }

  lemma ReceivedTarget(w: World, fd: int, chunk: Chunk, k: nat, side: bool)
    requires k < |w.conns| && w.conns[k].fate.Alive? && SideOk(w, k, side) && SideOk(w, k, !side)
    requires fd == w.conns[k].Of(side).fd && |w.peers[w.peers[fd].pairedFd].outbound| < HIGH_WATERMARK
    ensures SideOk(Received(w, fd, chunk), k, !side)
  {
    ReceivedShape(w, fd, chunk, k, side);
    var paired := w.peers[fd].pairedFd;
  }

  /** After a read, both sockets of the connection are as required. */
  lemma ReceivedSides(w: World, fd: int, chunk: Chunk, k: nat, side: bool)
    requires k < |w.conns| && w.conns[k].fate.Alive? && SideOk(w, k, side) && SideOk(w, k, !side)
    requires fd == w.conns[k].Of(side).fd && |w.peers[w.peers[fd].pairedFd].outbound| < HIGH_WATERMARK
    ensures var w' := Received(w, fd, chunk);
            && w'.conns == w.conns[k := w.conns[k].With(side, w'.conns[k].Of(side))]
            && SideOk(w', k, side) && SideOk(w', k, !side)
            && ReadsEvolve(w.conns[k].Of(side), w'.conns[k].Of(side), {fd})
            && w'.conns[k].Of(side).received == w.conns[k].Of(side).received + chunk
            && Drained(w.peers[fd], w'.peers[fd])
  {
    ReceivedShape(w, fd, chunk, k, side);
    assert Pending(Received(w, fd, chunk).peers[fd]) == Pending(w.peers[fd]);
    ReceivedTarget(w, fd, chunk, k, side);
    ReceivedShape(w, fd, chunk, k, side);
  }

  /** A chunk read while the partner's buffer is below the high-water mark keeps the
      bound; the interest of both sockets is then out of date. */
  lemma ReceivedKeeps(w: World, fd: int, chunk: Chunk, except: set<int>)
    requires InvExcept(w, except) && fd in w.peers && w.peers[fd].pairedFd in w.peers
    requires |w.peers[w.peers[fd].pairedFd].outbound| < HIGH_WATERMARK
    ensures InvExcept(Received(w, fd, chunk), except + {fd, w.peers[fd].pairedFd})
    ensures Evolves(w, Received(w, fd, chunk), {fd})
  {
    var w' := Received(w, fd, chunk);
    var k, side := OwnerOf(w, fd, except);
    ReceivedSides(w, fd, chunk, k, side);
    ReceivedBooks(w, k, side, w'.conns[k].Of(side), |chunk|, w');
    var except' := except + {fd, w.peers[fd].pairedFd};
    assert w.conns[k].Of(side).fd in except' && w.conns[k].Of(!side).fd in except';
    ReceivedLocal(w, fd, chunk, k, side);
    LocalKeeps(w, w', k, except, except', {fd});
  }

  lemma ReceivedLocal(w: World, fd: int, chunk: Chunk, k: nat, side: bool)
    requires k < |w.conns| && w.conns[k].fate.Alive? && SideOk(w, k, side) && SideOk(w, k, !side)
    requires fd == w.conns[k].Of(side).fd && |w.peers[w.peers[fd].pairedFd].outbound| < HIGH_WATERMARK
    ensures var w' := Received(w, fd, chunk);
            && Local(w, w', k)
            && OthersSame(w, w', w.conns[k].client.fd, w.conns[k].backend.fd)
            && (forall s: bool :: ReadsEvolve(w.conns[k].Of(s), w'.conns[k].Of(s), {fd}))
            && (forall s: bool :: BufferEvolves(w, w', k, s, {fd}))
  {
    var w' := Received(w, fd, chunk);
    ReceivedSides(w, fd, chunk, k, side);
    assert ReadsEvolve(w.conns[k].Of(!side), w'.conns[k].Of(!side), {fd});
    assert BufferEvolves(w, w', k, side, {fd}) && BufferEvolves(w, w', k, !side, {fd});
    assert w'.peers.Keys == w.peers.Keys;
  }

  lemma ConnectKeeps(w: World, fd: int)
    requires Inv(w) && fd in w.peers && w.peers[fd].connecting
    ensures InvExcept(Connect(w, fd), {fd}) && Evolves(w, Connect(w, fd), {})
    ensures w.peers[fd].backendIndex < w.cfg.backendCount
  {
    var k, side := OwnerOf(w, fd, {});
    var v := Connect(w, fd);
    assert Pending(v.peers[fd]) == Pending(w.peers[fd]);
    assert v.conns == w.conns[k := v.conns[k]];
    SameBooks(w, v, k);
    forall s: bool | w.conns[k].Of(s).fd !in {fd} ensures ArmOk(v, k, s) {
      assert ArmOk(w, k, s);
    }
    forall s: bool ensures BufferEvolves(w, v, k, s, {}) { assert s == true || s == false; }
    LocalKeeps(w, v, k, {}, {fd}, {});
  }

  predicate Plain(w: World, call: Call) {
    (call.Latency? || call.Healthy?) && call.index < w.cfg.backendCount
  }

  lemma TwoRecords(w: World, first: Call, second: Call, except: set<int>)
    requires InvExcept(w, except) && Plain(w, first) && Plain(w, second)
    ensures InvExcept(Record(w, first), except) && Evolves(w, Record(w, first), {})
    ensures var r := Record(Record(w, first), second); InvExcept(r, except) && Evolves(w, r, {})
  {
    RecordKeeps(w, first, except);
    RecordKeeps(Record(w, first), second, except);
    EvolvesTrans(w, Record(w, first), Record(Record(w, first), second), {});
  }

  /** The two calls that a completed connect records. */
  lemma EstablishedKeeps(w: World, fd: int)
    requires Inv(w) && fd in w.peers && w.peers[fd].connecting
    ensures InvExcept(Established(w, fd), {fd}) && Evolves(w, Established(w, fd), {})
  {
    var v, b := Connect(w, fd), w.peers[fd].backendIndex;
    var latency := Latency(b, v.now - w.peers[fd].connectStartedAt);
    ConnectKeeps(w, fd);
    ThenRecorded(w, v, Established(w, fd), latency, Healthy(b), {fd});
  }

  lemma ThenRecorded(w: World, v: World, r: World, first: Call, second: Call, except: set<int>)
    requires InvExcept(v, except) && Evolves(w, v, {}) && Plain(v, first) && Plain(v, second)
    requires r == Record(Record(v, first), second)
    ensures InvExcept(r, except) && Evolves(w, r, {})
  {
    TwoRecords(v, first, second, except);
    EvolvesTrans(w, v, r, {});
  }

  // ----- New connections -----

  lemma JoinBooks(w: World, c: Conn, w': World)
    requires Books(w) && c.index < w.cfg.backendCount
    requires c.fate.Alive? && c.client.received == [] && c.backend.received == []
    requires w'.cfg == w.cfg && w'.refused == w.refused && w'.conns == w.conns + [c]
    requires w'.calls == w.calls + [Open(c.index)]
    ensures Books(w')
  {
    DisciplinedAppend(w.calls, Open(c.index));
    forall cell | Counted(cell)
      ensures Net(w'.calls, cell) == SumBooked(w'.conns, cell) + SumRefused(w'.refused, cell) {
      NetAppend(w.calls, Open(c.index), cell);
      assert (w.conns + [c])[..|w.conns|] == w.conns;
    }
  }

  lemma TwoMore<V>(m: map<int, V>, a: int, b: int, u: V, v: V)
    ensures m[a := u][b := v].Keys == m.Keys + {a} + {b}
  {
  }

  lemma JoinSockets(w: World, client: int, backend: int, index: nat)
    requires Sockets(w) && Fresh(w, client) && Fresh(w, backend) && client != backend
    ensures Sockets(Join(w, client, backend, index))
  {
    var w' := Join(w, client, backend, index);
    var own := Own(w.cfg);
    ObtainAppend(w.sockets, client, w.peers.Keys + own);
    ObtainAppend(w.sockets + [Obtain(client)], backend, w.peers.Keys + own + {client});
    assert w.peers.Keys + own + {client} + {backend} == w.peers.Keys + {client} + {backend} + own;
    TwoMore(w.peers, client, backend, w'.peers[client], w'.peers[backend]);
    TwoMore(w.armed, client, backend, w'.armed[client], w'.armed[backend]);
    TwoMore(w.owner, client, backend, w'.owner[client], w'.owner[backend]);
  }

  /** The connections that were there before are untouched by a new one. */
  lemma JoinOld(w: World, client: int, backend: int, index: nat, k: nat, side: bool)
    requires Inv(w) && Fresh(w, client) && Fresh(w, backend) && client != backend
    requires k < |w.conns| && w.conns[k].fate.Alive?
    ensures var w' := Join(w, client, backend, index);
            SideOk(w', k, side) && ArmOk(w', k, side) && BufferEvolves(w, w', k, side, {})
  {
    assert SideOk(w, k, side) && SideOk(w, k, !side) && ArmOk(w, k, side);
  }

  /** Every connection, the new one included, after a new one has been made. */
  lemma JoinSides(w: World, client: int, backend: int, index: nat, k: nat, side: bool)
    requires Inv(w) && Fresh(w, client) && Fresh(w, backend) && client != backend && index < w.cfg.backendCount
    requires k <= |w.conns|
    ensures var w' := Join(w, client, backend, index);
            && |w'.conns| == |w.conns| + 1
            && (w'.conns[k].fate.Alive? ==> SideOk(w', k, side) && ArmOk(w', k, side))
            && BufferEvolves(w, w', k, side, {})
  {
    if k == |w.conns| {
    } else if w.conns[k].fate.Alive? {
      JoinOld(w, client, backend, index, k, side);
    }
  }

  lemma JoinOwners(w: World, client: int, backend: int, index: nat)
    requires Sockets(w) && Owners(w) && Fresh(w, client) && Fresh(w, backend) && client != backend
    ensures Owners(Join(w, client, backend, index))
  {
    var w' := Join(w, client, backend, index);
    JoinSockets(w, client, backend, index);
    forall fd | fd in w'.peers ensures OwnerOk(w', fd) {
      if fd != client && fd != backend { assert OwnerOk(w, fd); }
    }
  }

  lemma JoinKeeps(w: World, client: int, backend: int, index: nat)
    requires Inv(w) && Fresh(w, client) && Fresh(w, backend) && client != backend && index < w.cfg.backendCount
    ensures Inv(Join(w, client, backend, index)) && Evolves(w, Join(w, client, backend, index), {})
  {
    var w' := Join(w, client, backend, index);
    JoinSockets(w, client, backend, index);
    JoinOwners(w, client, backend, index);
    JoinBooks(w, w'.conns[|w.conns|], w');
    forall k: nat, side: bool | k < |w'.conns|
      ensures w'.conns[k].fate.Alive? ==> SideOk(w', k, side) && ArmOk(w', k, side)
      ensures BufferEvolves(w, w', k, side, {}) {
      JoinSides(w, client, backend, index, k, side);
    }
    forall k: nat | k < |w.conns| ensures ConnEvolves(w.conns[k], w'.conns[k], {}) {}
  }

  lemma TurnAwayKeeps(w: World, client: int)
    requires Inv(w) && Fresh(w, client)
    ensures Inv(TurnAway(w, client)) && Evolves(w, TurnAway(w, client), {})
  {
    var w' := TurnAway(w, client);
    var open := w.peers.Keys + Own(w.cfg);
    ObtainAppend(w.sockets, client, open);
    ReleaseAppend(w.sockets + [Obtain(client)], client, open + {client});
    assert open + {client} - {client} == open;
    forall fd | fd in w'.peers ensures OwnerOk(w', fd) { assert OwnerOk(w, fd); }
    forall k: nat, side: bool | k < |w'.conns| && w'.conns[k].fate.Alive?
      ensures SideOk(w', k, side) && ArmOk(w', k, side) {
      assert SideOk(w, k, side) && ArmOk(w, k, side);
    }
    SameConnsEvolve(w, w');
  }

  lemma RefuseKeeps(w: World, b: nat)
    requires Inv(w) && b < w.cfg.backendCount
    ensures var w' := Record(w.(refused := w.refused + [b]), Failure(b));
            Inv(w') && Evolves(w, w', {})
  {
    var w' := Record(w.(refused := w.refused + [b]), Failure(b));
    DisciplinedAppend(w.calls, Failure(b));
    forall cell | Counted(cell)
      ensures Net(w'.calls, cell) == SumBooked(w'.conns, cell) + SumRefused(w'.refused, cell) {
      NetAppend(w.calls, Failure(b), cell);
      assert (w.refused + [b])[..|w.refused|] == w.refused;
    }
    forall fd | fd in w'.peers ensures OwnerOk(w', fd) { assert OwnerOk(w, fd); }
    forall k: nat, side: bool | k < |w'.conns| && w'.conns[k].fate.Alive?
      ensures SideOk(w', k, side) && ArmOk(w', k, side) {
      assert SideOk(w, k, side) && ArmOk(w, k, side);
    }
    SameConnsEvolve(w, w');
  }
}
