/** What the write and read loops did, told by the answers they consumed. */
module Verdicts {
  import opened Calls
  import opened Engine
  import opened Invariant
  import opened Steps
  import opened Handlers
  import opened Timeouts

  predicate Fatal(a: WriteAnswer) {
    a.WriteError? || a == Wrote(0)
  }

  /** How many of `n` pending bytes the answers take; no write takes more than is left. */
  function Taken(answers: seq<WriteAnswer>, n: nat): (t: nat)
    ensures t <= n
  {
    if answers == [] then 0
    else if answers[0].Wrote? then
      var c := if answers[0].count > n then n else answers[0].count;
      c + Taken(answers[1..], n - c)
    else Taken(answers[1..], n)
  }

  /** The bytes of a stream of read answers. */
  function Gathered(answers: seq<ReadAnswer>): seq<byte> {
    if answers == [] then []
    else (if answers[0].Data? then answers[0].chunk else []) + Gathered(answers[1..])
  }

  /** `used` answers were consumed from the front of a stream. */
  predicate Consumed<T(==)>(before: seq<T>, after: seq<T>, used: nat) {
    used <= |before| && after == before[used..]
  }

  /** The write loop of descriptor `fd`, side `side` of connection `k`: the bytes it
      delivered are the front of what was pending, as many as the answers took; it stopped
      because nothing was left, because the socket would block, or because a write failed,
      in which case it closed the pair, as a backend failure if `fd` is the backend. */
  predicate FlushVerdict(w: World, r: World, fd: int, k: nat, side: bool, used: nat)
    requires fd in w.peers && k < |w.conns| == |r.conns|
  {
    && Consumed(w.writeAnswers, r.writeAnswers, used)
    && r.conns[k].Of(side).delivered == w.conns[k].Of(side).delivered +
       Pending(w.peers[fd])[..Taken(w.writeAnswers[..used], |Pending(w.peers[fd])|)]
    && (w.peers[fd].connecting || Pending(w.peers[fd]) == [] ==> used == 0 && r == w)
    && if fd in r.peers then
         && r.conns[k].fate.Alive?
         && r.peers[fd] == w.peers[fd].(outbound := r.peers[fd].outbound, sent := r.peers[fd].sent,
                                        lastActivity := r.peers[fd].lastActivity)
         && (!w.peers[fd].connecting && Pending(r.peers[fd]) != [] ==>
               r.writeAnswers == [] || (used > 0 && w.writeAnswers[used - 1].WriteWouldBlock?))
       else used > 0 && Fatal(w.writeAnswers[used - 1]) && r.conns[k].fate == FateOf(side)
  }

  lemma StepConsumed<T>(before: seq<T>, after: seq<T>, used: nat)
    requires before != [] && Consumed(before[1..], after, used)
    ensures Consumed(before, after, used + 1)
    ensures before[..used + 1] == [before[0]] + before[1..][..used]
    ensures used > 0 ==> before[used] == before[1..][used - 1]
  {
  }

  lemma ClosedVerdict(w: World, fd: int, failure: bool, except: set<int>)
    requires InvExcept(w, except) && fd in w.peers
    ensures var r := ClosePair(w, fd, failure);
            && fd !in r.peers && w.owner[fd] < |w.conns| && |r.conns| == |w.conns|
            && r.conns[w.owner[fd]] == w.conns[w.owner[fd]].(fate := FateOf(failure))
  {
    var k, side := OwnerOf(w, fd, except);
    CloseShape(w, fd, failure, k, side);
  }

  /** Nothing to write, or no answer left. */
  lemma NothingTells(w: World, fd: int, k: nat, side: bool, except: set<int>)
    requires InvExcept(w, except) && fd in w.peers && k == w.owner[fd] && side == w.peers[fd].backendSide
    requires w.peers[fd].connecting || w.peers[fd].sent >= |w.peers[fd].outbound| || w.writeAnswers == []
    ensures k < |w.conns| && FlushVerdict(w, Flush(w, fd), fd, k, side, 0)
  {
    var k', side' := OwnerOf(w, fd, except);
    assert w.conns[k].Of(side).delivered + Pending(w.peers[fd])[..0] == w.conns[k].Of(side).delivered;
    if w.peers[fd].sent >= |w.peers[fd].outbound| {
      EmptiedIsSame(w, fd, except);
    }
    assert Flush(w, fd) == w;
  }

  /** A single answer that takes nothing. */
  lemma StoppedTells(w: World, r: World, fd: int, k: nat, side: bool)
    requires fd in w.peers && k < |w.conns| == |r.conns| && w.writeAnswers != []
    requires r.writeAnswers == w.writeAnswers[1..] && !w.peers[fd].connecting && Pending(w.peers[fd]) != []
    requires r.conns[k].Of(side).delivered == w.conns[k].Of(side).delivered
    requires Taken(w.writeAnswers[..1], |Pending(w.peers[fd])|) == 0
    requires if fd in r.peers
             then r.peers[fd] == w.peers[fd] && r.conns[k].fate.Alive? && w.writeAnswers[0].WriteWouldBlock?
             else Fatal(w.writeAnswers[0]) && r.conns[k].fate == FateOf(side)
    ensures FlushVerdict(w, r, fd, k, side, 1)
  {
    assert w.conns[k].Of(side).delivered + Pending(w.peers[fd])[..0] == w.conns[k].Of(side).delivered;
  }

  lemma {:induction false} FlushTells(w: World, fd: int, k: nat, side: bool, except: set<int>) returns (used: nat)
    requires InvExcept(w, except) && fd in w.peers && k == w.owner[fd] && side == w.peers[fd].backendSide
    ensures k < |w.conns| && FlushVerdict(w, Flush(w, fd), fd, k, side, used)
    decreases |w.writeAnswers|
  {
    var k', side' := OwnerOf(w, fd, except);
    if w.peers[fd].connecting || w.peers[fd].sent >= |w.peers[fd].outbound| || w.writeAnswers == [] {
      NothingTells(w, fd, k, side, except);
      used := 0;
    } else {
      var p, v := w.peers[fd], w.(writeAnswers := w.writeAnswers[1..]);
      AdvanceKeeps(w, v, except);
      match NextWrite(w, |p.outbound| - p.sent)
      case Wrote(n) =>
        used := WroteTells(w, v, fd, n, k, side, except);
      case WriteWouldBlock =>
        StoppedTells(w, v, fd, k, side);
        used := 1;
      case WriteInterrupted =>
        var more := FlushTells(v, fd, k, side, except);
        PrependInterrupt(w, v, Flush(v, fd), fd, k, side, more);
        used := more + 1;
      case WriteError =>
        ClosedVerdict(v, fd, p.backendSide, except);
        StoppedTells(w, ClosePair(v, fd, p.backendSide), fd, k, side);
        used := 1;
    }
  }

  /** An interruption in front of the rest of the loop. */
  lemma PrependInterrupt(w: World, v: World, r: World, fd: int, k: nat, side: bool, more: nat)
    requires fd in v.peers && k < |v.conns| == |r.conns| && !v.peers[fd].connecting && Pending(v.peers[fd]) != []
    requires w.writeAnswers != [] && w.writeAnswers[0].WriteInterrupted?
    requires v == w.(writeAnswers := w.writeAnswers[1..]) && FlushVerdict(v, r, fd, k, side, more)
    ensures FlushVerdict(w, r, fd, k, side, more + 1)
  {
    StepConsumed(w.writeAnswers, r.writeAnswers, more);
    assert w.writeAnswers[..more + 1][1..] == w.writeAnswers[1..][..more];
  }

  /** A partial write followed by more of the same. */
  lemma PrependWrite(w: World, s: World, r: World, fd: int, n: nat, k: nat, side: bool, more: nat)
    requires fd in w.peers && fd in s.peers && k < |w.conns| == |s.conns| == |r.conns|
    requires w.writeAnswers != [] && s.writeAnswers == w.writeAnswers[1..]
    requires w.writeAnswers[0] == Wrote(n) && 0 < n < |Pending(w.peers[fd])|
    requires !w.peers[fd].connecting && s.peers[fd].connecting == w.peers[fd].connecting
    requires s.peers[fd] == w.peers[fd].(sent := s.peers[fd].sent, lastActivity := s.peers[fd].lastActivity)
    requires Pending(w.peers[fd]) == Pending(w.peers[fd])[..n] + Pending(s.peers[fd])
    requires s.conns[k].Of(side).delivered == w.conns[k].Of(side).delivered + Pending(w.peers[fd])[..n]
    requires FlushVerdict(s, r, fd, k, side, more)
    ensures FlushVerdict(w, r, fd, k, side, more + 1)
  {
    StepConsumed(w.writeAnswers, r.writeAnswers, more);
    TakenBytes(w.writeAnswers, Pending(w.peers[fd]), Pending(s.peers[fd]), n, more);
    var d, rest := w.conns[k].Of(side).delivered,
                   Pending(s.peers[fd])[..Taken(w.writeAnswers[1..][..more], |Pending(s.peers[fd])|)];
    assert d + Pending(w.peers[fd])[..n] + rest == d + (Pending(w.peers[fd])[..n] + rest);
  }

  /** How much a partial write and those after it take. */
  lemma TakenStep(answers: seq<WriteAnswer>, all: nat, left: nat, n: nat, more: nat)
    requires more < |answers| && answers[0] == Wrote(n) && all == n + left
    ensures Taken(answers[..more + 1], all) == n + Taken(answers[1..][..more], left)
  {
    assert answers[..more + 1][1..] == answers[1..][..more];
  }

  lemma FrontOf(all: seq<byte>, left: seq<byte>, n: nat, t: nat)
    requires n <= |all| && all == all[..n] + left && t <= |left|
    ensures all[..n + t] == all[..n] + left[..t]
  {
    assert left == all[n..];
  }

  /** The bytes that a partial write and those after it take from the front. */
  lemma TakenBytes(answers: seq<WriteAnswer>, all: seq<byte>, left: seq<byte>, n: nat, more: nat)
    requires more < |answers| && answers[0] == Wrote(n) && 0 < n < |all| && all == all[..n] + left
    ensures all[..Taken(answers[..more + 1], |all|)] == all[..n] + left[..Taken(answers[1..][..more], |left|)]
  {
    assert |all| == n + |left|;
    FrontOf(all, left, n, Taken(answers[1..][..more], |left|));
    TakenStep(answers, |all|, |left|, n, more);
  }

  lemma {:induction false} WroteTells(w: World, v: World, fd: int, n: nat, k: nat, side: bool, except: set<int>)
    returns (used: nat)
    requires WroteCase(w, v, fd, n)
    requires InvExcept(v, except) && k == v.owner[fd] && side == v.peers[fd].backendSide
    ensures k < |w.conns| && FlushVerdict(w, Flush(w, fd), fd, k, side, used)
    decreases |w.writeAnswers|, 0
  {
    var k', side' := OwnerOf(v, fd, except);
    var p := v.peers[fd];
    used := 1;
    if n == 0 {
      NoneTells(w, v, fd, k, side, except);
    } else if p.sent + n == |p.outbound| {
      WholeTells(w, v, fd, n, k, side);
    } else {
      var s := Sent(v, fd, n);
      SentKeeps(v, fd, n, except);
      PartKeepsOwner(v, fd, n);
      var more := FlushTells(s, fd, k, side, except);
      PartTells(w, v, fd, n, k, side, more);
      used := more + 1;
    }
  }

  /** A write that took nothing. */
  lemma NoneTells(w: World, v: World, fd: int, k: nat, side: bool, except: set<int>)
    requires WroteCase(w, v, fd, 0)
    requires InvExcept(v, except) && k == v.owner[fd] < |v.conns| && side == v.peers[fd].backendSide
    ensures FlushVerdict(w, Flush(w, fd), fd, k, side, 1)
  {
    var r := ClosePair(v, fd, v.peers[fd].backendSide);
    assert Flush(w, fd) == r;
    ClosedVerdict(v, fd, v.peers[fd].backendSide, except);
    StoppedTells(w, r, fd, k, side);
  }

  lemma PartKeepsOwner(v: World, fd: int, n: nat)
    requires fd in v.peers && 0 < n < |v.peers[fd].outbound| - v.peers[fd].sent
    ensures var s := Sent(v, fd, n);
            && fd in s.peers && s.owner == v.owner && s.peers[fd].backendSide == v.peers[fd].backendSide
            && s.writeAnswers == v.writeAnswers
  {
  }

  /** A write that took a part, given what the rest of the loop did. */
  lemma PartTells(w: World, v: World, fd: int, n: nat, k: nat, side: bool, more: nat)
    requires WroteCase(w, v, fd, n) && 0 < n < |v.peers[fd].outbound| - v.peers[fd].sent
    requires k < |v.conns| && v.conns[k].fate.Alive? && SideOk(v, k, side) && SideOk(v, k, !side)
    requires fd == v.conns[k].Of(side).fd && k < |Sent(v, fd, n).conns| && fd in Sent(v, fd, n).peers
    requires FlushVerdict(Sent(v, fd, n), Flush(Sent(v, fd, n), fd), fd, k, side, more)
    ensures FlushVerdict(w, Flush(w, fd), fd, k, side, more + 1)
  {
    var s := Sent(v, fd, n);
    assert Flush(w, fd) == Flush(s, fd);
    SentSides(v, fd, n, k, side);
    SentShape(v, fd, n, k, side);
    PartialPending(v.peers[fd], n, s.peers[fd]);
    PrependWrite(w, s, Flush(s, fd), fd, n, k, side, more);
  }

  lemma PartialPending(p: Peer, n: nat, p': Peer)
    requires 0 < n && p.sent + n < |p.outbound| && p'.outbound == p.outbound && p'.sent == p.sent + n
    ensures Pending(p) == Pending(p)[..n] + Pending(p') && Pending(p)[..n] == p.outbound[p.sent..p.sent + n]
  {
  }

  /** The write that takes everything that is left. */
  lemma WholeTells(w: World, v: World, fd: int, n: nat, k: nat, side: bool)
    requires k < |v.conns| && v.conns[k].fate.Alive? && SideOk(v, k, side) && SideOk(v, k, !side)
    requires fd == v.conns[k].Of(side).fd && !v.peers[fd].connecting
    requires w.writeAnswers != [] && v == w.(writeAnswers := w.writeAnswers[1..])
    requires n > 0 && v.peers[fd].sent + n == |v.peers[fd].outbound|
    requires NextWrite(w, |v.peers[fd].outbound| - v.peers[fd].sent) == Wrote(n)
    ensures FlushVerdict(w, Flush(w, fd), fd, k, side, 1)
  {
    SentSides(v, fd, n, k, side);
    var p := v.peers[fd];
    StepConsumed(w.writeAnswers, v.writeAnswers, 0);
    assert Taken(w.writeAnswers[..1], |Pending(p)|) == n;
    assert p.outbound[p.sent..p.sent + n] == Pending(p)[..n];
  }

  /** The read loop of descriptor `fd`, side `side` of connection `k`: everything the
      answers carried was received, in order; it stopped because the socket would block,
      because the partner's buffer reached the high-water mark, or because the pair was
      closed -- without blame at end of stream, as a backend failure if the socket that
      failed is the backend. */
  predicate ReadVerdict(w: World, r: World, fd: int, k: nat, side: bool, used: nat)
    requires fd in w.peers && k < |w.conns| == |r.conns|
  {
    && Consumed(w.readAnswers, r.readAnswers, used)
    && r.conns[k].Of(side).received == w.conns[k].Of(side).received + Gathered(w.readAnswers[..used])
    && if fd in r.peers then
         && r.conns[k].fate.Alive?
         && (r.readAnswers == [] || (used > 0 && w.readAnswers[used - 1].ReadWouldBlock?)
             || (used > 0 && w.readAnswers[used - 1].Data? && Throttled(r, w.peers[fd].pairedFd)))
       else
         && used > 0
         && match w.readAnswers[used - 1]
            case Eof => r.conns[k].fate == Closed
            case ReadError => r.conns[k].fate == FateOf(side)
            case Data(_) => r.conns[k].fate == FateOf(!side)
            case _ => false
  }

  /** One chunk: it is received whole, and the pair is closed only if the partner's
      write failed. */
  lemma ForwardTells(w: World, fd: int, chunk: Chunk, k: nat, side: bool)
    requires Inv(w) && Roomy(w, fd) && fd in w.peers && w.peers[fd].pairedFd in w.peers
    requires k == w.owner[fd] && side == w.peers[fd].backendSide
    ensures var f := Forward(w, fd, chunk);
            && k < |w.conns| == |f.conns|
            && f.conns[k].Of(side).received == w.conns[k].Of(side).received + chunk
            && (f.conns[k].fate.Alive? || f.conns[k].fate == FateOf(!side))
  {
    var k', side' := OwnerOf(w, fd, {});
    var q, c := w.peers[fd].pairedFd, Received(w, fd, chunk);
    ReceivedKeeps(w, fd, chunk, {});
    ReceivedSides(w, fd, chunk, k, side);
    FlushOnly(c, q, k, side, {fd, q});
    assert Forward(w, fd, chunk).conns == Flush(c, q).conns;
  }

  lemma FlushOnly(c: World, q: int, k: nat, side: bool, except: set<int>)
    requires InvExcept(c, except) && q in c.peers && k == c.owner[q] && c.peers[q].backendSide == !side
    ensures var g := Flush(c, q);
            && k < |c.conns| == |g.conns|
            && g.conns[k].Of(side).received == c.conns[k].Of(side).received
            && (g.conns[k].fate.Alive? || g.conns[k].fate == FateOf(!side))
  {
    var g := Flush(c, q);
    FlushKeeps(c, q, except);
    var used := FlushTells(c, q, k, !side, except);
    assert ConnEvolves(c.conns[k], g.conns[k], {});
    assert ReadsEvolve(c.conns[k].Of(side), g.conns[k].Of(side), {});
  }

  /** Without new connections, a registered descriptor has kept its connection. */
  lemma OwnerKept(w: World, w': World, fd: int, from: set<int>)
    requires Inv(w) && Inv(w') && Evolves(w, w', from) && |w'.conns| == |w.conns| && fd in w'.peers
    ensures fd in w.peers && w'.owner[fd] == w.owner[fd] < |w'.conns| && w'.conns[w.owner[fd]].fate.Alive?
  {
    var k, side := OwnerOf(w', fd, {});
    assert ConnEvolves(w.conns[k], w'.conns[k], from);
    assert SideOk(w, k, side);
  }

  /** Without new connections, a descriptor is registered exactly while its connection lives. */
  lemma RegisteredWhileAlive(w: World, w': World, fd: int, from: set<int>)
    requires Inv(w) && Inv(w') && Evolves(w, w', from) && |w'.conns| == |w.conns| && fd in w.peers
    ensures w.owner[fd] < |w'.conns|
    ensures fd in w'.peers <==> w'.conns[w.owner[fd]].fate.Alive?
    ensures fd in w'.peers ==>
              && w'.owner[fd] == w.owner[fd] && w'.peers[fd].backendSide == w.peers[fd].backendSide
              && w'.peers[fd].pairedFd == w.peers[fd].pairedFd && w'.peers[fd].pairedFd in w'.peers
    ensures w.peers[fd].pairedFd in w'.peers <==> fd in w'.peers
  {
    var k, side := OwnerOf(w, fd, {});
    assert ConnEvolves(w.conns[k], w'.conns[k], from);
    if fd in w'.peers {
      OwnerKept(w, w', fd, from);
    }
    if w.peers[fd].pairedFd in w'.peers {
      OwnerKept(w, w', w.peers[fd].pairedFd, from);
    }
    if w'.conns[k].fate.Alive? {
      assert SideOk(w', k, side) && SideOk(w', k, !side);
    }
  }

  /** A consumed answer followed by more of the same. */
  lemma PrependRead(w: World, f: World, r: World, fd: int, k: nat, side: bool, more: nat)
    requires fd in w.peers && fd in f.peers && k < |w.conns| == |f.conns| == |r.conns|
    requires w.readAnswers != [] && f.readAnswers == w.readAnswers[1..]
    requires f.peers[fd].pairedFd == w.peers[fd].pairedFd
    requires f.conns[k].Of(side).received == w.conns[k].Of(side).received +
             (if w.readAnswers[0].Data? then w.readAnswers[0].chunk else [])
    requires ReadVerdict(f, r, fd, k, side, more)
    ensures ReadVerdict(w, r, fd, k, side, more + 1)
  {
    StepConsumed(w.readAnswers, r.readAnswers, more);
    assert w.readAnswers[..more + 1][1..] == w.readAnswers[1..][..more];
  }

  /** A single consumed answer. */
  lemma OneRead(w: World, r: World, fd: int, k: nat, side: bool)
    requires fd in w.peers && k < |w.conns| == |r.conns|
    requires w.readAnswers != [] && r.readAnswers == w.readAnswers[1..]
    requires r.conns[k].Of(side).received == w.conns[k].Of(side).received +
             (if w.readAnswers[0].Data? then w.readAnswers[0].chunk else [])
    requires match w.readAnswers[0]
             case Eof => fd !in r.peers && r.conns[k].fate == Closed
             case ReadError => fd !in r.peers && r.conns[k].fate == FateOf(side)
             case ReadWouldBlock => fd in r.peers && r.conns[k].fate.Alive?
             case Data(_) => if fd in r.peers then r.conns[k].fate.Alive? && Throttled(r, w.peers[fd].pairedFd)
                             else r.conns[k].fate == FateOf(!side)
             case ReadInterrupted => false
    ensures ReadVerdict(w, r, fd, k, side, 1)
  {
    assert w.readAnswers[..1] == [w.readAnswers[0]];
    assert Gathered(w.readAnswers[..1][1..]) == [];
  }

  lemma {:induction false} ReadTells(w: World, fd: int, k: nat, side: bool) returns (used: nat)
    requires Inv(w) && Roomy(w, fd) && fd in w.peers && k == w.owner[fd] && side == w.peers[fd].backendSide
    ensures k < |w.conns| == |ReadAvailable(w, fd).conns|
    ensures ReadVerdict(w, ReadAvailable(w, fd), fd, k, side, used)
    decreases |w.readAnswers|
  {
    var k', side' := OwnerOf(w, fd, {});
    used := 0;
    if w.readAnswers == [] {
    } else {
      var p, v := w.peers[fd], w.(readAnswers := w.readAnswers[1..]);
      AdvanceKeeps(w, v, {});
      match NextRead(w)
      case Data(chunk) =>
        used := DataTells(w, v, fd, chunk, k, side);
      case ReadInterrupted =>
        var more := ReadTells(v, fd, k, side);
        PrependRead(w, v, ReadAvailable(v, fd), fd, k, side, more);
        used := more + 1;
      case ReadWouldBlock =>
        OneRead(w, v, fd, k, side);
        used := 1;
      case Eof =>
        ClosedVerdict(v, fd, false, {});
        OneRead(w, ClosePair(v, fd, false), fd, k, side);
        used := 1;
      case ReadError =>
        ClosedVerdict(v, fd, p.backendSide, {});
        OneRead(w, ClosePair(v, fd, p.backendSide), fd, k, side);
        used := 1;
    }
  }

  lemma {:induction false} DataTells(w: World, v: World, fd: int, chunk: Chunk, k: nat, side: bool) returns (used: nat)
    requires Inv(v) && Roomy(v, fd) && fd in v.peers && k == v.owner[fd] && side == v.peers[fd].backendSide
    requires w.readAnswers != [] && v == w.(readAnswers := w.readAnswers[1..]) && w.readAnswers[0] == Data(chunk)
    ensures k < |w.conns| == |ReadAvailable(w, fd).conns|
    ensures ReadVerdict(w, ReadAvailable(w, fd), fd, k, side, used)
    decreases |w.readAnswers|, 0
  {
    var k', side' := OwnerOf(v, fd, {});
    var q, f := v.peers[fd].pairedFd, Forward(v, fd, chunk);
    ForwardKeeps(v, fd, chunk);
    ForwardTells(v, fd, chunk, k, side);
    RegisteredWhileAlive(v, f, fd, {fd});
    if Throttled(f, q) {
      OneRead(w, f, fd, k, side);
      used := 1;
    } else if fd !in f.peers {
      OneRead(w, f, fd, k, side);
      used := 1;
    } else {
      var more := ReadTells(f, fd, k, side);
      PrependRead(w, f, ReadAvailable(f, fd), fd, k, side, more);
      used := more + 1;
    }
  }

  /** The completion of connection `k` was recorded: how long the connect took, and that
      the backend is healthy. */
  predicate Completed(w: World, calls: seq<Call>, k: nat)
    requires k < |w.conns|
  {
    var elapsed := NextTime(w) - w.conns[k].openedAt;
    elapsed >= 0 && w.calls + [Latency(w.conns[k].index, elapsed), Healthy(w.conns[k].index)] <= calls
  }

  /** What a connection's completion recorded, and what it wrote, told by the write answers. */
  predicate Drains(w: World, r: World, fd: int, k: nat, used: nat)
    requires fd in w.peers && k < |w.conns| == |r.conns|
  {
    && used <= |w.writeAnswers|
    && Completed(w, r.calls, k)
    && r.conns[k].backend.delivered == w.conns[k].backend.delivered +
       Pending(w.peers[fd])[..Taken(w.writeAnswers[..used], |Pending(w.peers[fd])|)]
    && (fd in r.peers ==>
          && !r.peers[fd].connecting && r.conns[k].fate.Alive?
          && (Pending(r.peers[fd]) == [] || r.writeAnswers == [] ||
              (used > 0 && w.writeAnswers[used - 1].WriteWouldBlock?)))
    && (fd !in r.peers ==> used > 0 && Fatal(w.writeAnswers[used - 1]) && r.conns[k].fate.Failed?)
  }

  /** Completion of a connect.  A socket error ends the connection as a backend failure;
      otherwise the backend is no longer connecting and what the client had sent
      meanwhile is written as far as the socket takes it. */
  lemma FinishConnectTells(w: World, fd: int) returns (k: nat, used: nat)
    requires Inv(w) && fd in w.peers && w.peers[fd].connecting
    ensures k == w.owner[fd] < |w.conns| == |FinishConnect(w, fd).conns|
    ensures var r := FinishConnect(w, fd);
            if w.connectAnswers != [] && w.connectAnswers[0] then Drains(w, r, fd, k, used)
            else fd !in r.peers && r.conns[k] == w.conns[k].(fate := Failed)
  {
    var side: bool;
    k, side := OwnerOf(w, fd, {});
    used := 0;
    var v := if w.connectAnswers == [] then w else w.(connectAnswers := w.connectAnswers[1..]);
    AdvanceKeeps(w, v, {});
    if SocketHealthy(w) {
      EstablishedKeeps(v, fd);
      used := EstablishedDrains(w, v, fd, k);
    } else {
      ClosedVerdict(v, fd, true, {});
    }
  }

  lemma EstablishedDrains(w: World, v: World, fd: int, k: nat) returns (used: nat)
    requires fd in v.peers && v.peers[fd].backendSide && v == w.(connectAnswers := v.connectAnswers)
    requires InvExcept(Established(v, fd), {fd}) && fd in v.owner && k == v.owner[fd] < |v.conns|
    requires v.peers[fd].backendIndex == v.conns[k].index
    requires v.peers[fd].connectStartedAt == v.conns[k].openedAt <= v.now
    ensures Drains(w, ModifyFd(Flush(Established(v, fd), fd), fd), fd, k, used)
  {
    var e := Established(v, fd);
    EstablishedShape(w, v, fd, k);
    used := FlushTells(e, fd, k, true, {fd});
    var f := Flush(e, fd);
    FlushKeeps(e, fd, {fd});
  }

  /** The state between the completion of a connect and the first write. */
  lemma EstablishedShape(w: World, v: World, fd: int, k: nat)
    requires fd in v.peers && v == w.(connectAnswers := v.connectAnswers) && k < |v.conns|
    requires v.peers[fd].backendIndex == v.conns[k].index
    requires v.peers[fd].connectStartedAt == v.conns[k].openedAt <= v.now
    ensures var e := Established(v, fd);
            && e.conns == w.conns && e.writeAnswers == w.writeAnswers && fd in e.peers && !e.peers[fd].connecting
            && Pending(e.peers[fd]) == Pending(w.peers[fd]) && e.owner == w.owner
            && e.peers[fd].backendSide == w.peers[fd].backendSide
            && Completed(w, e.calls, k)
  {
    var l, h := Latency(w.conns[k].index, NextTime(w) - w.conns[k].openedAt), Healthy(w.conns[k].index);
    assert w.calls + [l] + [h] == w.calls + [l, h];
  }

  /** A hang-up or error on a socket ends its connection, as a backend failure exactly if
      the socket is the backend's. */
  lemma HangupTells(w: World, ev: Event, order: seq<int>)
    requires Inv(w) && ev.fd in w.peers && ev.hangup
    ensures var k, r := w.owner[ev.fd], HandleEvent(w, ev, order);
            && ev.fd !in r.peers && k < |w.conns| == |r.conns|
            && r.conns[k] == w.conns[k].(fate := FateOf(w.peers[ev.fd].backendSide))
  {
    ClosedVerdict(w, ev.fd, w.peers[ev.fd].backendSide, {});
  }

  // ----- Accepting -----

  /** The connections that a stretch of accept answers opens: client, backend, index. */
  function Opened(answers: seq<AcceptAnswer>): seq<(int, int, nat)> {
    if answers == [] then []
    else
      (if answers[0].Accepted? && answers[0].route.Routed?
       then [(answers[0].fd, answers[0].route.fd, answers[0].route.index)] else []) + Opened(answers[1..])
  }

  /** The backends that refused at once. */
  function RefusedBy(answers: seq<AcceptAnswer>): seq<nat> {
    if answers == [] then []
    else
      (if answers[0].Accepted? && answers[0].route.Refused? then [answers[0].route.index] else []) +
      RefusedBy(answers[1..])
  }

  /** What an accepted client does to the open descriptors: a routed one stays, with its
      backend socket, and every other one is closed again. */
  function DescriptorsOf(a: AcceptAnswer): seq<SocketOp> {
    if !a.Accepted? then []
    else if a.route.Routed? then [Obtain(a.fd), Obtain(a.route.fd)]
    else [Obtain(a.fd), Release(a.fd)]
  }

  function Descriptors(answers: seq<AcceptAnswer>): seq<SocketOp> {
    if answers == [] then [] else DescriptorsOf(answers[0]) + Descriptors(answers[1..])
  }

  /** What it records: an open if it is routed, a failure if it is refused. */
  function RecordedBy(a: AcceptAnswer): seq<Call> {
    if !a.Accepted? || a.route.NoBackend? then []
    else if a.route.Refused? then [Failure(a.route.index)]
    else [Open(a.route.index)]
  }

  function Recorded(answers: seq<AcceptAnswer>): seq<Call> {
    if answers == [] then [] else RecordedBy(answers[0]) + Recorded(answers[1..])
  }

  /** A log without the ejections. */
  function Sans(log: seq<Call>): seq<Call> {
    if log == [] then []
    else Sans(log[..|log| - 1]) + (if log[|log| - 1].Eject? then [] else [log[|log| - 1]])
  }

  lemma SansAppend(log: seq<Call>, call: Call)
    ensures Sans(log + [call]) == Sans(log) + (if call.Eject? then [] else [call])
  {
    assert (log + [call])[..|log|] == log;
  }

  function Endpoints(conns: seq<Conn>): seq<(int, int, nat)> {
    if conns == [] then [] else [(conns[0].client.fd, conns[0].backend.fd, conns[0].index)] + Endpoints(conns[1..])
  }

  /** Why the accept loop stopped: the answers ran out, or the next one is neither a client
      nor an interruption, or it is one that the kernel could not have given. */
  predicate AcceptStopped(w: World, r: World, taken: nat) {
    taken < |w.acceptAnswers| ==>
      var a := w.acceptAnswers[taken];
      a.AcceptWouldBlock? || a.AcceptError? || (a.Accepted? && Absurd(r, a))
  }

  /** The descriptor is in use, or none at all. */
  predicate Taboo(w: World, fd: int) {
    fd < 0 || fd in w.peers || fd in Own(w.cfg)
  }

  /** A client that cannot have been accepted: its descriptor or its backend socket is in
      use, or the backend does not exist. */
  predicate Absurd(w: World, a: AcceptAnswer)
    requires a.Accepted?
  {
    || Taboo(w, a.fd)
    || (!a.route.NoBackend? && a.route.index >= w.cfg.backendCount)
    || (a.route.Routed? && (Taboo(w, a.route.fd) || a.route.fd == a.fd))
  }

  /** The answers the loop consumed: those it took, and the one that stopped it. */
  predicate AcceptConsumed(w: World, r: World, taken: nat) {
    && taken <= |w.acceptAnswers|
    && Consumed(w.acceptAnswers, r.acceptAnswers, if taken < |w.acceptAnswers| then taken + 1 else taken)
    && forall i | 0 <= i < taken :: w.acceptAnswers[i].Accepted? || w.acceptAnswers[i].AcceptInterrupted?
  }

  /** What the accept loop did with its first `taken` answers, from `w` to `r`. */
  predicate AcceptVerdict(w: World, r: World, taken: nat) {
    && taken <= |w.acceptAnswers|
    && w.conns <= r.conns
    && Endpoints(r.conns[|w.conns|..]) == Opened(w.acceptAnswers[..taken])
    && r.refused == w.refused + RefusedBy(w.acceptAnswers[..taken])
    && (forall k | |w.conns| <= k < |r.conns| :: r.conns[k].fate.Alive?)
  }

  /** What it did to the open descriptors, and what it recorded, ejections aside. */
  predicate AcceptRecord(w: World, r: World, taken: nat) {
    && taken <= |w.acceptAnswers|
    && r.sockets == w.sockets + Descriptors(w.acceptAnswers[..taken])
    && Sans(r.calls) == Sans(w.calls) + Recorded(w.acceptAnswers[..taken])
  }

  lemma AttachDescriptors(w: World, client: int, route: Route)
    ensures AttachBackend(w, client, route).sockets == w.sockets + DescriptorsOf(Accepted(client, route))
  {
    var s := w.sockets + [Obtain(client)];
    match route
    case Routed(_, fd) => assert s + [Obtain(fd)] == w.sockets + [Obtain(client), Obtain(fd)];
    case _ => assert s + [Release(client)] == w.sockets + [Obtain(client), Release(client)];
  }

  lemma AttachRecords(w: World, client: int, route: Route)
    ensures Sans(AttachBackend(w, client, route).calls) == Sans(w.calls) + RecordedBy(Accepted(client, route))
  {
    match route
    case NoBackend =>
    case Refused(b) =>
      SansAppend(w.calls, Failure(b));
      SansAppend(w.calls + [Failure(b)], Eject(b));
    case Routed(b, _) =>
      SansAppend(w.calls, Open(b));
  }

  lemma PrependRecord(w: World, a: World, r: World, taken: nat)
    requires w.acceptAnswers != [] && a.acceptAnswers == w.acceptAnswers[1..] && AcceptRecord(a, r, taken)
    requires a.sockets == w.sockets + DescriptorsOf(w.acceptAnswers[0])
    requires Sans(a.calls) == Sans(w.calls) + RecordedBy(w.acceptAnswers[0])
    ensures AcceptRecord(w, r, taken + 1)
  {
    RecordStep(w.acceptAnswers, taken);
    Regroup(w.sockets, DescriptorsOf(w.acceptAnswers[0]), Descriptors(w.acceptAnswers[1..][..taken]));
    Regroup(Sans(w.calls), RecordedBy(w.acceptAnswers[0]), Recorded(w.acceptAnswers[1..][..taken]));
  }

  lemma RecordStep(answers: seq<AcceptAnswer>, taken: nat)
    requires taken < |answers|
    ensures Descriptors(answers[..taken + 1]) == DescriptorsOf(answers[0]) + Descriptors(answers[1..][..taken])
    ensures Recorded(answers[..taken + 1]) == RecordedBy(answers[0]) + Recorded(answers[1..][..taken])
  {
    assert answers[..taken + 1][1..] == answers[1..][..taken];
  }

  lemma Regroup<T>(a: seq<T>, b: seq<T>, c: seq<T>)
    ensures a + b + c == a + (b + c)
  {
  }

  /** One accepted client. */
  lemma AttachTells(w: World, client: int, route: Route)
    ensures var r := AttachBackend(w, client, route);
            && r.conns == w.conns + r.conns[|w.conns|..]
            && Endpoints(r.conns[|w.conns|..]) == (if route.Routed? then [(client, route.fd, route.index)] else [])
            && r.refused == w.refused + (if route.Refused? then [route.index] else [])
            && (forall k | |w.conns| <= k < |r.conns| :: r.conns[k].fate.Alive?)
  {
    var r := AttachBackend(w, client, route);
    if route.Routed? {
      assert r.conns[|w.conns|..] == [r.conns[|w.conns|]];
      assert r.conns[|w.conns|..][1..] == [];
    } else {
      assert r.conns[|w.conns|..] == [];
    }
  }

  lemma {:induction false} EndpointsConcat(a: seq<Conn>, b: seq<Conn>)
    ensures Endpoints(a + b) == Endpoints(a) + Endpoints(b)
  {
    if a == [] {
      assert a + b == b;
    } else {
      assert (a + b)[1..] == a[1..] + b;
      EndpointsConcat(a[1..], b);
    }
  }

  predicate OneAccept(w: World, a: World, answer: AcceptAnswer) {
    && w.conns <= a.conns
    && Endpoints(a.conns[|w.conns|..]) == Opened([answer])
    && a.refused == w.refused + RefusedBy([answer])
    && (forall k | |w.conns| <= k < |a.conns| :: a.conns[k].fate.Alive?)
  }

  lemma PrependAnswers(answers: seq<AcceptAnswer>, taken: nat)
    requires answers != [] && taken < |answers|
    ensures Opened(answers[..taken + 1]) == Opened([answers[0]]) + Opened(answers[1..][..taken])
    ensures RefusedBy(answers[..taken + 1]) == RefusedBy([answers[0]]) + RefusedBy(answers[1..][..taken])
  {
    assert answers[..taken + 1][1..] == answers[1..][..taken];
    assert [answers[0]][1..] == [];
  }

  lemma PrependEndpoints(a: seq<Conn>, b: seq<Conn>, c: seq<Conn>)
    requires a <= b <= c
    ensures Endpoints(c[|a|..]) == Endpoints(b[|a|..]) + Endpoints(c[|b|..])
  {
    assert c[|a|..] == b[|a|..] + c[|b|..];
    EndpointsConcat(b[|a|..], c[|b|..]);
  }

  lemma PrependAccept(w: World, a: World, r: World, taken: nat)
    requires w.acceptAnswers != [] && a.acceptAnswers == w.acceptAnswers[1..] && AcceptVerdict(a, r, taken)
    requires OneAccept(w, a, w.acceptAnswers[0])
    ensures AcceptVerdict(w, r, taken + 1)
  {
    PrependAnswers(w.acceptAnswers, taken);
    PrependEndpoints(w.conns, a.conns, r.conns);
    Regroup(w.refused, RefusedBy([w.acceptAnswers[0]]), RefusedBy(w.acceptAnswers[1..][..taken]));
    assert forall k | |w.conns| <= k < |a.conns| :: r.conns[k] == a.conns[k];
  }

  /** One more answer taken at the front. */
  lemma PrependConsumed(w: World, a: World, r: World, taken: nat)
    requires w.acceptAnswers != [] && a.acceptAnswers == w.acceptAnswers[1..]
    requires w.acceptAnswers[0].Accepted? || w.acceptAnswers[0].AcceptInterrupted?
    requires AcceptConsumed(a, r, taken) && AcceptStopped(a, r, taken)
    ensures AcceptConsumed(w, r, taken + 1) && AcceptStopped(w, r, taken + 1)
  {
    assert forall i | 0 < i < taken + 1 :: w.acceptAnswers[i] == a.acceptAnswers[i - 1];
  }

  lemma NothingAccepted(w: World, r: World)
    requires r == w || (w.acceptAnswers != [] && r == w.(acceptAnswers := w.acceptAnswers[1..]))
    ensures AcceptVerdict(w, r, 0)
  {
    assert r.conns[|w.conns|..] == [] && w.acceptAnswers[..0] == [];
  }

  /** An interruption changes nothing. */
  lemma InterruptTells(w: World, v: World)
    requires w.acceptAnswers != [] && w.acceptAnswers[0].AcceptInterrupted?
    requires v == w.(acceptAnswers := w.acceptAnswers[1..])
    ensures OneAccept(w, v, w.acceptAnswers[0])
  {
    assert v.conns[|w.conns|..] == [] && [w.acceptAnswers[0]][1..] == [];
  }

  lemma ClientTells(w: World, v: World, client: int, route: Route)
    requires w.acceptAnswers != [] && w.acceptAnswers[0] == Accepted(client, route)
    requires v == w.(acceptAnswers := w.acceptAnswers[1..])
    ensures OneAccept(w, AttachBackend(v, client, route), w.acceptAnswers[0])
  {
    AttachTells(v, client, route);
    assert [w.acceptAnswers[0]][1..] == [];
  }

  /** The accept loop opens one connection for every routed client, in order, leaves
      every other connection alone, and stops at the first answer that is neither a
      client nor an interruption, and only there or when no answer is left. */
  lemma {:induction false} AcceptTells(w: World) returns (taken: nat)
    ensures AcceptVerdict(w, AcceptClients(w), taken)
    ensures AcceptConsumed(w, AcceptClients(w), taken)
    ensures AcceptStopped(w, AcceptClients(w), taken)
    ensures AcceptRecord(w, AcceptClients(w), taken)
    decreases |w.acceptAnswers|
  {
    taken := 0;
    var r := AcceptClients(w);
    if w.acceptAnswers == [] {
      NothingAccepted(w, r);
    } else {
      var v := w.(acceptAnswers := w.acceptAnswers[1..]);
      match NextAccept(w)
      case Accepted(client, route) =>
        var a := AttachBackend(v, client, route);
        ClientTells(w, v, client, route);
        var more := AcceptTells(a);
        PrependAccept(w, a, r, more);
        AttachDescriptors(v, client, route);
        AttachRecords(v, client, route);
        PrependRecord(w, a, r, more);
        PrependConsumed(w, a, r, more);
        taken := more + 1;
      case AcceptInterrupted =>
        InterruptTells(w, v);
        var more := AcceptTells(v);
        PrependAccept(w, v, r, more);
        PrependRecord(w, v, r, more);
        PrependConsumed(w, v, r, more);
        taken := more + 1;
      case _ =>
        NothingAccepted(w, r);
    }
  }
}
