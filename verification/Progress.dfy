/** What one event of a socket achieves: nothing is left undone that the kernel would
    have allowed. */
module Progress {
  import opened Engine
  import opened Invariant
  import opened Steps
  import opened Handlers
  import opened Verdicts
  import opened Runs

  function Used<T>(before: seq<T>, after: seq<T>): nat {
    if |after| <= |before| then |before| - |after| else 0
  }

  predicate Suffix<T(==)>(before: seq<T>, after: seq<T>) {
    Consumed(before, after, Used(before, after))
  }

  /** The writes stopped because the kernel would take no more. */
  predicate WritesBlocked(before: seq<WriteAnswer>, after: seq<WriteAnswer>) {
    after == [] || (Suffix(before, after) && Used(before, after) > 0 &&
                    before[Used(before, after) - 1].WriteWouldBlock?)
  }

  lemma SuffixFrom<T>(before: seq<T>, after: seq<T>, used: nat)
    requires Consumed(before, after, used)
    ensures Suffix(before, after) && Used(before, after) == used
  {
  }

  lemma SuffixTrans<T>(a: seq<T>, b: seq<T>, c: seq<T>)
    requires Suffix(a, b) && Suffix(b, c)
    ensures Suffix(a, c)
    ensures Used(b, c) > 0 ==> Used(a, c) > 0 && a[Used(a, c) - 1] == b[Used(b, c) - 1]
  {
  }

  lemma FlushWrites(w: World, fd: int, except: set<int>)
    requires InvExcept(w, except)
    ensures Suffix(w.writeAnswers, Flush(w, fd).writeAnswers)
  {
    if fd in w.peers {
      var k, side := OwnerOf(w, fd, except);
      var used := FlushTells(w, fd, k, side, except);
      SuffixFrom(w.writeAnswers, Flush(w, fd).writeAnswers, used);
    }
  }

  lemma ForwardWrites(w: World, fd: int, chunk: Chunk)
    requires Inv(w) && fd in w.peers && w.peers[fd].pairedFd in w.peers
    requires |w.peers[w.peers[fd].pairedFd].outbound| < HIGH_WATERMARK
    ensures Suffix(w.writeAnswers, Forward(w, fd, chunk).writeAnswers)
  {
    var q := w.peers[fd].pairedFd;
    ReceivedKeeps(w, fd, chunk, {});
    FlushWrites(Received(w, fd, chunk), q, {} + {fd, q});
  }

  lemma {:induction false} ReadWrites(w: World, fd: int)
    requires Inv(w) && Roomy(w, fd)
    ensures Suffix(w.writeAnswers, ReadAvailable(w, fd).writeAnswers)
    decreases |w.readAnswers|
  {
    if fd !in w.peers || w.readAnswers == [] {
    } else {
      var v := w.(readAnswers := w.readAnswers[1..]);
      AdvanceKeeps(w, v, {});
      match NextRead(w)
      case Data(chunk) =>
        DataWrites(w, v, fd, chunk);
      case ReadInterrupted =>
        ReadWrites(v, fd);
      case _ =>
    }
  }

  lemma {:induction false} DataWrites(w: World, v: World, fd: int, chunk: Chunk)
    requires Inv(v) && Roomy(v, fd) && fd in v.peers
    requires w.readAnswers != [] && v == w.(readAnswers := w.readAnswers[1..]) && w.readAnswers[0] == Data(chunk)
    ensures Suffix(w.writeAnswers, ReadAvailable(w, fd).writeAnswers)
    decreases |w.readAnswers|, 0
  {
    var k, side := OwnerOf(v, fd, {});
    var q, f := v.peers[fd].pairedFd, Forward(v, fd, chunk);
    ForwardKeeps(v, fd, chunk);
    ForwardWrites(v, fd, chunk);
    if !Throttled(f, q) {
      if fd in f.peers { PairSurvives(v, f, fd, {}, {fd}); }
      ReadWrites(f, fd);
      SuffixTrans(w.writeAnswers, f.writeAnswers, ReadAvailable(f, fd).writeAnswers);
    }
  }

  predicate Untouched(w: World, w': World, x: int) {
    x in w'.peers ==> x in w.peers && w'.peers[x] == w.peers[x]
  }

  lemma CloseOneLeavesOthers(w: World, fd: int, x: int)
    ensures Untouched(w, CloseOne(w, fd), x)
  {
  }

  lemma CloseLeavesOthers(w: World, fd: int, failure: bool, x: int)
    ensures Untouched(w, ClosePair(w, fd, failure), x)
  {
    if fd in w.peers {
      var p, retired := w.peers[fd], Retire(w, fd, if failure then Failed else Closed);
      var one := CloseOne(retired, fd);
      CloseOneLeavesOthers(retired, fd, x);
      CloseOneLeavesOthers(one, p.pairedFd, x);
    }
  }

  /** Flushing one socket leaves every other peer as it is. */
  lemma {:induction false} FlushLeavesOthers(w: World, fd: int, x: int)
    requires x != fd
    ensures Untouched(w, Flush(w, fd), x)
    decreases |w.writeAnswers|
  {
    if fd !in w.peers || w.peers[fd].connecting || w.peers[fd].sent >= |w.peers[fd].outbound| || w.writeAnswers == [] {
    } else {
      var p, v := w.peers[fd], w.(writeAnswers := w.writeAnswers[1..]);
      match NextWrite(w, |p.outbound| - p.sent)
      case Wrote(n) =>
        WroteLeavesOthers(w, v, fd, n, x);
      case WriteInterrupted =>
        FlushLeavesOthers(v, fd, x);
      case WriteError =>
        CloseLeavesOthers(v, fd, p.backendSide, x);
      case WriteWouldBlock =>
    }
  }

  lemma {:induction false} WroteLeavesOthers(w: World, v: World, fd: int, n: nat, x: int)
    requires x != fd && fd in v.peers && !v.peers[fd].connecting && v.peers[fd].sent < |v.peers[fd].outbound|
    requires w.writeAnswers != [] && v == w.(writeAnswers := w.writeAnswers[1..])
    requires NextWrite(w, |v.peers[fd].outbound| - v.peers[fd].sent) == Wrote(n)
    ensures Untouched(w, Flush(w, fd), x)
    decreases |w.writeAnswers|, 0
  {
    if n == 0 {
      CloseLeavesOthers(v, fd, v.peers[fd].backendSide, x);
    } else {
      if v.peers[fd].sent + n < |v.peers[fd].outbound| {
        FlushLeavesOthers(Sent(v, fd, n), fd, x);
      }
    }
  }

  /** The three stages of an event on a socket. */
  function Connected(w: World, ev: Event): World
    requires ev.fd in w.peers
  {
    if w.peers[ev.fd].connecting && ev.output then FinishConnect(w, ev.fd) else w
  }

  function ReadOut(a: World, ev: Event): World {
    if ev.fd in a.peers && ev.input then ReadAvailable(a, ev.fd) else a
  }

  predicate OnSocket(w: World, ev: Event) {
    ev.fd in w.peers && !ev.hangup && ev.fd != w.cfg.listenerFd && ev.fd != w.cfg.timerFd
  }

  lemma Stages(w: World, ev: Event, order: seq<int>)
    requires OnSocket(w, ev)
    ensures var b := ReadOut(Connected(w, ev), ev);
            HandleEvent(w, ev, order) == if ev.fd in b.peers && ev.output then Flush(b, ev.fd) else b
  {
  }

  lemma ConnectedStage(w: World, ev: Event)
    requires Inv(w) && OnSocket(w, ev) && (ev.input ==> Roomy(w, ev.fd))
    ensures var a := Connected(w, ev);
            && Inv(a) && Evolves(w, a, {}) && |a.conns| == |w.conns|
            && a.readAnswers == w.readAnswers && Suffix(w.writeAnswers, a.writeAnswers)
            && (ev.input ==> Roomy(a, ev.fd))
            && (ev.fd in a.peers && ev.output ==> !a.peers[ev.fd].connecting)
  {
    var a := Connected(w, ev);
    EvolvesRefl(w, {});
    if w.peers[ev.fd].connecting && ev.output {
      FinishConnectKeeps(w, ev.fd);
      FinishWrites(w, ev.fd);
      if ev.input { RoomyAfterConnect(w, ev.fd); }
      var k, used := FinishConnectTells(w, ev.fd);
    }
  }

  lemma FinishWrites(w: World, fd: int)
    requires Inv(w) && fd in w.peers && w.peers[fd].connecting
    ensures Suffix(w.writeAnswers, FinishConnect(w, fd).writeAnswers)
  {
    var v := if w.connectAnswers == [] then w else w.(connectAnswers := w.connectAnswers[1..]);
    if SocketHealthy(w) {
      AdvanceKeeps(w, v, {});
      EstablishedKeeps(v, fd);
      FlushWrites(Established(v, fd), fd, {fd});
    }
  }

  lemma ReadStage(a: World, ev: Event)
    requires Inv(a) && (ev.input ==> Roomy(a, ev.fd))
    ensures var b := ReadOut(a, ev);
            && Inv(b) && Evolves(a, b, Source(ev)) && |b.conns| == |a.conns|
            && Suffix(a.writeAnswers, b.writeAnswers)
  {
    EvolvesRefl(a, Source(ev));
    if ev.fd in a.peers && ev.input {
      ReadKeeps(a, ev.fd);
      ReadWrites(a, ev.fd);
      var k, side := OwnerOf(a, ev.fd, {});
      var used := ReadTells(a, ev.fd, k, side);
    }
  }

  lemma StillConnected(a: World, b: World, fd: int, from: set<int>)
    requires Inv(a) && Inv(b) && Evolves(a, b, from) && |b.conns| == |a.conns| && fd in b.peers
    ensures fd in a.peers && (b.peers[fd].connecting ==> a.peers[fd].connecting)
  {
    var k, side := OwnerOf(b, fd, {});
    assert BufferEvolves(a, b, k, side, from);
  }

  lemma FlushDone(b: World, fd: int)
    requires Inv(b) && fd in b.peers && !b.peers[fd].connecting
    ensures var r := Flush(b, fd);
            && Suffix(b.writeAnswers, r.writeAnswers)
            && (fd in r.peers ==>
                  && !r.peers[fd].connecting
                  && (Pending(r.peers[fd]) == [] || WritesBlocked(b.writeAnswers, r.writeAnswers)))
  {
    var k, side := OwnerOf(b, fd, {});
    var used := FlushTells(b, fd, k, side, {});
    SuffixFrom(b.writeAnswers, Flush(b, fd).writeAnswers, used);
  }

  /** After an output event the socket is connected, and everything that was waiting for
      it, bytes read during the event included, has been written unless the kernel would
      take no more; or the connection has ended. */
  lemma OutputDone(w: World, ev: Event, order: seq<int>)
    requires Inv(w) && OnSocket(w, ev) && ev.output && (ev.input ==> Roomy(w, ev.fd))
    ensures var r := HandleEvent(w, ev, order);
            ev.fd in r.peers ==>
              && !r.peers[ev.fd].connecting
              && (Pending(r.peers[ev.fd]) == [] || WritesBlocked(w.writeAnswers, r.writeAnswers))
  {
    var a := Connected(w, ev);
    var b, r := ReadOut(a, ev), HandleEvent(w, ev, order);
    Stages(w, ev, order);
    ConnectedStage(w, ev);
    ReadStage(a, ev);
    if ev.fd in b.peers {
      StillConnected(a, b, ev.fd, Source(ev));
      FlushDone(b, ev.fd);
      SuffixTrans(w.writeAnswers, a.writeAnswers, b.writeAnswers);
      SuffixTrans(w.writeAnswers, b.writeAnswers, r.writeAnswers);
    }
  }

  /** The reads stopped because the kernel had no more. */
  predicate ReadsBlocked(before: seq<ReadAnswer>, after: seq<ReadAnswer>) {
    after == [] || (Suffix(before, after) && Used(before, after) > 0 &&
                    before[Used(before, after) - 1].ReadWouldBlock?)
  }

  /** What an input event left behind. */
  predicate ReadToEnd(w: World, r: World, fd: int) {
    fd in w.peers && fd in r.peers ==>
      ReadsBlocked(w.readAnswers, r.readAnswers) || Throttled(r, w.peers[fd].pairedFd)
  }

  /** What an input event received, and why it stopped. */
  predicate ReadDone(w: World, r: World, fd: int, k: nat, side: bool)
    requires k < |w.conns| == |r.conns|
  {
    && Suffix(w.readAnswers, r.readAnswers)
    && r.conns[k].Of(side).received ==
       w.conns[k].Of(side).received + Gathered(w.readAnswers[..Used(w.readAnswers, r.readAnswers)])
    && ReadToEnd(w, r, fd)
  }

  lemma ReadStageDone(a: World, ev: Event, k: nat, side: bool)
    requires Inv(a) && ev.input && Roomy(a, ev.fd) && ev.fd in a.peers
    requires k == a.owner[ev.fd] && side == a.peers[ev.fd].backendSide
    ensures k < |a.conns| == |ReadOut(a, ev).conns| && ReadDone(a, ReadOut(a, ev), ev.fd, k, side)
  {
    var used := ReadTells(a, ev.fd, k, side);
    SuffixFrom(a.readAnswers, ReadOut(a, ev).readAnswers, used);
  }

  lemma ReadDoneFrom(w: World, a: World, b: World, fd: int, k: nat, side: bool)
    requires k < |w.conns| == |a.conns| == |b.conns| && fd in w.peers
    requires a.readAnswers == w.readAnswers && a.conns[k].Of(side).received == w.conns[k].Of(side).received
    requires fd in a.peers ==> a.peers[fd].pairedFd == w.peers[fd].pairedFd && ReadDone(a, b, fd, k, side)
    requires fd !in a.peers ==> a == b
    ensures ReadDone(w, b, fd, k, side)
  {
    if fd !in a.peers {
      assert w.readAnswers[..0] == [];
      assert w.conns[k].Of(side).received + [] == w.conns[k].Of(side).received;
    }
  }

  /** The first two stages. */
  lemma InputRead(w: World, ev: Event, k: nat, side: bool)
    requires Inv(w) && OnSocket(w, ev) && ev.input && Roomy(w, ev.fd)
    requires k == w.owner[ev.fd] && side == w.peers[ev.fd].backendSide
    ensures var b := ReadOut(Connected(w, ev), ev);
            && Inv(b) && k < |w.conns| == |b.conns| && ReadDone(w, b, ev.fd, k, side)
            && (ev.fd in b.peers ==> b.peers[ev.fd].pairedFd == w.peers[ev.fd].pairedFd)
  {
    var a := Connected(w, ev);
    ConnectedStage(w, ev);
    ReadStage(a, ev);
    RegisteredWhileAlive(w, a, ev.fd, {});
    NotReceived(w, a, k, side);
    if ev.fd in a.peers {
      ReadStageDone(a, ev, k, side);
      RegisteredWhileAlive(a, ReadOut(a, ev), ev.fd, Source(ev));
    }
    ReadDoneFrom(w, a, ReadOut(a, ev), ev.fd, k, side);
  }

  /** After an input event everything that the reads returned was received, in order, and
      either the kernel had no more, or the partner's buffer has reached the high-water
      mark, or the connection has ended. */
  lemma InputDone(w: World, ev: Event, order: seq<int>)
    requires Inv(w) && OnSocket(w, ev) && ev.input && Roomy(w, ev.fd)
    ensures var r, k := HandleEvent(w, ev, order), w.owner[ev.fd];
            k < |w.conns| == |r.conns| && ReadDone(w, r, ev.fd, k, w.peers[ev.fd].backendSide)
  {
    var k, side := OwnerOf(w, ev.fd, {});
    Stages(w, ev, order);
    InputRead(w, ev, k, side);
    FlushStage(ReadOut(Connected(w, ev), ev), HandleEvent(w, ev, order), ev, k, side);
  }

  /** The last stage reads nothing and leaves the partner's buffer alone. */
  lemma FlushStage(b: World, r: World, ev: Event, k: nat, side: bool)
    requires Inv(b) && k < |b.conns| && r == if ev.fd in b.peers && ev.output then Flush(b, ev.fd) else b
    ensures r.readAnswers == b.readAnswers && |r.conns| == |b.conns|
    ensures r.conns[k].Of(side).received == b.conns[k].Of(side).received
    ensures ev.fd in r.peers ==>
              ev.fd in b.peers && (Throttled(b, b.peers[ev.fd].pairedFd) ==> Throttled(r, b.peers[ev.fd].pairedFd))
  {
    if ev.fd in b.peers && ev.output {
      FlushKeeps(b, ev.fd, {});
      NotReceived(b, r, k, side);
      var kb, sb := OwnerOf(b, ev.fd, {});
      FlushLeavesOthers(b, ev.fd, b.peers[ev.fd].pairedFd);
      RegisteredWhileAlive(b, r, ev.fd, {});
    }
  }

  lemma NotReceived(w: World, w': World, k: nat, side: bool)
    requires Evolves(w, w', {}) && k < |w.conns|
    ensures k < |w'.conns| && w'.conns[k].Of(side).received == w.conns[k].Of(side).received
  {
    assert ConnEvolves(w.conns[k], w'.conns[k], {});
    assert ReadsEvolve(w.conns[k].Of(side), w'.conns[k].Of(side), {});
  }

  /** Both, for every socket event of every run. */
  lemma RunProgress(run: seq<Loop>, i: nat)
    requires IsRun(run) && i + 1 < |run| && run[i].pending != [] && OnSocket(run[i].w, run[i].pending[0])
    ensures var ev, w, r := run[i].pending[0], run[i].w, run[i + 1].w;
            && ev.fd in w.owner && w.owner[ev.fd] < |w.conns| == |r.conns|
            && (ev.input ==> ReadDone(w, r, ev.fd, w.owner[ev.fd], w.peers[ev.fd].backendSide))
            && (ev.output && ev.fd in r.peers ==>
                  && !r.peers[ev.fd].connecting
                  && (Pending(r.peers[ev.fd]) == [] || WritesBlocked(w.writeAnswers, r.writeAnswers)))
  {
    RunInvariant(run, i);
    var ev, w := run[i].pending[0], run[i].w;
    assert Next(run[i], run[i + 1]);
    var order :| Visits(order, w.peers.Keys) && run[i + 1].w == HandleEvent(w, ev, order);
    var k, side := OwnerOf(w, ev.fd, {});
    if ev.input { InputDone(w, ev, order); }
    if ev.output { OutputDone(w, ev, order); }
    Stages(w, ev, order);
    ConnectedStage(w, ev);
    ReadStage(Connected(w, ev), ev);
  }

}
