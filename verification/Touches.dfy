/** An event on a socket touches nothing but its own pair. */
module Touches {
  import opened Engine
  import opened Handlers
  import opened Invariant
  import opened Steps

  /** `x` is registered as one socket of connection `k`, with partner `y`, or not at all. */
  predicate Half(w: World, x: int, y: int, k: nat)
    requires k < |w.conns|
  {
    x in w.peers ==>
      && w.peers[x].pairedFd == y && y in w.peers
      && x in w.owner && w.owner[x] == k && w.conns[k].Of(w.peers[x].backendSide).fd == x
  }

  predicate Couple(w: World, x: int, y: int, k: nat) {
    x != y && k < |w.conns| && Half(w, x, y, k) && Half(w, y, x, k)
  }

  /** A descriptor's peer and interest are the same. */
  predicate SameAt(w: World, r: World, x: int) {
    && (x in r.peers <==> x in w.peers) && (x in w.peers ==> r.peers[x] == w.peers[x])
    && (x in r.armed <==> x in w.armed) && (x in w.armed ==> r.armed[x] == w.armed[x])
  }

  /** A socket of the pair is closed or keeps its identity, and bytes are written to it
      only if it is in `written`. */
  predicate StaysItself(w: World, r: World, x: int, k: nat, written: set<int>)
    requires k < |w.conns| == |r.conns|
  {
    && (x in r.peers ==>
          x in w.peers && r.peers[x].connecting == w.peers[x].connecting
          && r.peers[x].backendSide == w.peers[x].backendSide)
    && (forall side: bool | w.conns[k].Of(side).fd == x ::
          && r.conns[k].Of(side).fd == x
          && (x !in written ==> r.conns[k].Of(side).delivered == w.conns[k].Of(side).delivered))
  }

  /** From `w` to `r` only the pair `x`, `y` and its connection `k` were touched. */
  ghost predicate Only(w: World, r: World, x: int, y: int, k: nat, written: set<int>) {
    && k < |w.conns| == |r.conns| && Couple(r, x, y, k)
    && r.cfg == w.cfg && r.refused == w.refused
    && r.acceptAnswers == w.acceptAnswers && r.connectAnswers == w.connectAnswers
    && (forall j | 0 <= j < |w.conns| && j != k :: r.conns[j] == w.conns[j])
    && (forall z | z != x && z != y :: SameAt(w, r, z))
    && StaysItself(w, r, x, k, written) && StaysItself(w, r, y, k, written)
  }

  lemma OnlySwap(w: World, r: World, x: int, y: int, k: nat, written: set<int>)
    requires Only(w, r, x, y, k, written)
    ensures Only(w, r, y, x, k, written)
  {
  }

  lemma OnlyMore(w: World, r: World, x: int, y: int, k: nat, written: set<int>, more: set<int>)
    requires Only(w, r, x, y, k, written) && written <= more
    ensures Only(w, r, x, y, k, more)
  {
  }

  lemma OnlyTrans(a: World, b: World, c: World, x: int, y: int, k: nat, written: set<int>)
    requires Only(a, b, x, y, k, written) && Only(b, c, x, y, k, written)
    ensures Only(a, c, x, y, k, written)
  {
    forall z | z != x && z != y ensures SameAt(a, c, z) {
      assert SameAt(a, b, z) && SameAt(b, c, z);
    }
  }

  /** Nothing but the clock, the answers of reads, writes and ejections, and the calls. */
  predicate Quiet(w: World, v: World) {
    && v.cfg == w.cfg && v.peers == w.peers && v.armed == w.armed && v.owner == w.owner && v.conns == w.conns
    && v.refused == w.refused && v.acceptAnswers == w.acceptAnswers && v.connectAnswers == w.connectAnswers
  }

  lemma QuietOnly(w: World, v: World, x: int, y: int, k: nat, written: set<int>)
    requires Couple(w, x, y, k) && Quiet(w, v)
    ensures Only(w, v, x, y, k, written)
  {
  }

  lemma ModifyOnly(w: World, z: int, x: int, y: int, k: nat, written: set<int>)
    requires Couple(w, x, y, k) && (z == x || z == y)
    ensures Only(w, ModifyFd(w, z), x, y, k, written)
  {
  }

  lemma SeveredOnly(w: World, x: int, y: int, k: nat, failure: bool)
    requires Couple(w, x, y, k) && x in w.peers
    ensures Only(w, Severed(w, x, failure), x, y, k, {})
  {
    SeveredMaps(w, x, failure);
  }

  lemma CloseOnly(w: World, x: int, y: int, k: nat, failure: bool, written: set<int>)
    requires Couple(w, x, y, k)
    ensures Only(w, ClosePair(w, x, failure), x, y, k, written)
  {
    if x in w.peers {
      var u, r := Severed(w, x, failure), ClosePair(w, x, failure);
      SeveredOnly(w, x, y, k, failure);
      OnlyMore(w, u, x, y, k, {}, written);
      CloseIsSever(w, x, failure);
      assert Quiet(u, r);
      QuietOnly(u, r, x, y, k, written);
      OnlyTrans(w, u, r, x, y, k, written);
    } else {
      QuietOnly(w, w, x, y, k, written);
    }
  }

  lemma SentOnly(w: World, x: int, y: int, k: nat, n: nat)
    requires Couple(w, x, y, k) && x in w.peers && w.peers[x].sent + n <= |w.peers[x].outbound|
    ensures Only(w, Sent(w, x, n), x, y, k, {x})
  {
  }

  lemma {:induction false} FlushOnly(w: World, x: int, y: int, k: nat)
    requires Couple(w, x, y, k)
    ensures Only(w, Flush(w, x), x, y, k, {x})
    decreases |w.writeAnswers|
  {
    var r := Flush(w, x);
    if x !in w.peers || w.peers[x].connecting || w.peers[x].sent >= |w.peers[x].outbound| || w.writeAnswers == [] {
      NothingFlushed(w, x, y, k);
    } else {
      var p, v := w.peers[x], w.(writeAnswers := w.writeAnswers[1..]);
      QuietOnly(w, v, x, y, k, {x});
      match NextWrite(w, |p.outbound| - p.sent)
      case Wrote(n) =>
        WroteOnly(w, v, x, y, k, n);
      case WriteWouldBlock =>
      case WriteInterrupted =>
        FlushOnly(v, x, y, k);
        OnlyTrans(w, v, r, x, y, k, {x});
      case WriteError =>
        CloseOnly(v, x, y, k, p.backendSide, {x});
        OnlyTrans(w, v, r, x, y, k, {x});
    }
  }

  lemma NothingFlushed(w: World, x: int, y: int, k: nat)
    requires Couple(w, x, y, k)
    requires x !in w.peers || w.peers[x].connecting || w.peers[x].sent >= |w.peers[x].outbound| || w.writeAnswers == []
    ensures Only(w, Flush(w, x), x, y, k, {x})
  {
  }

  lemma {:induction false} WroteOnly(w: World, v: World, x: int, y: int, k: nat, n: nat)
    requires WroteCase(w, v, x, n) && Couple(v, x, y, k) && Only(w, v, x, y, k, {x})
    ensures Only(w, Flush(w, x), x, y, k, {x})
    decreases |w.writeAnswers|, 0
  {
    var p, r := v.peers[x], Flush(w, x);
    AfterWrote(w, v, x, n);
    if n == 0 {
      CloseOnly(v, x, y, k, p.backendSide, {x});
      OnlyTrans(w, v, r, x, y, k, {x});
    } else {
      var s := Sent(v, x, n);
      SentOnly(v, x, y, k, n);
      OnlyTrans(w, v, s, x, y, k, {x});
      if p.sent + n == |p.outbound| {
        ModifyOnly(s, y, x, y, k, {x});
      } else {
        FlushOnly(s, x, y, k);
      }
      OnlyTrans(w, s, r, x, y, k, {x});
    }
  }

  lemma ReceivedOnly(w: World, x: int, y: int, k: nat, chunk: Chunk)
    requires Couple(w, x, y, k) && x in w.peers && y in w.peers
    ensures Only(w, Received(w, x, chunk), x, y, k, {y})
  {
  }

  lemma ForwardOnly(w: World, x: int, y: int, k: nat, chunk: Chunk)
    requires Couple(w, x, y, k) && x in w.peers && y in w.peers
    ensures Only(w, Forward(w, x, chunk), x, y, k, {y})
  {
    var c := Received(w, x, chunk);
    ReceivedOnly(w, x, y, k, chunk);
    var f := Flush(c, y);
    FlushOnly(c, y, x, k);
    OnlySwap(c, f, y, x, k, {y});
    OnlyTrans(w, c, f, x, y, k, {y});
    var m := ModifyFd(f, x);
    ModifyOnly(f, x, x, y, k, {y});
    OnlyTrans(w, f, m, x, y, k, {y});
    ModifyOnly(m, y, x, y, k, {y});
    OnlyTrans(w, m, ModifyFd(m, y), x, y, k, {y});
  }

  lemma {:induction false} ReadOnly(w: World, x: int, y: int, k: nat)
    requires Couple(w, x, y, k)
    ensures Only(w, ReadAvailable(w, x), x, y, k, {y})
    decreases |w.readAnswers|
  {
    var r := ReadAvailable(w, x);
    if x !in w.peers || w.readAnswers == [] {
      QuietOnly(w, r, x, y, k, {y});
    } else {
      var p, v := w.peers[x], w.(readAnswers := w.readAnswers[1..]);
      QuietOnly(w, v, x, y, k, {y});
      match NextRead(w)
      case Data(chunk) =>
        var f := Forward(v, x, chunk);
        ForwardOnly(v, x, y, k, chunk);
        OnlyTrans(w, v, f, x, y, k, {y});
        if !Throttled(f, y) {
          ReadOnly(f, x, y, k);
          OnlyTrans(w, f, r, x, y, k, {y});
        }
      case Eof =>
        CloseOnly(v, x, y, k, false, {y});
        OnlyTrans(w, v, r, x, y, k, {y});
      case ReadWouldBlock =>
      case ReadInterrupted =>
        ReadOnly(v, x, y, k);
        OnlyTrans(w, v, r, x, y, k, {y});
      case ReadError =>
        CloseOnly(v, x, y, k, p.backendSide, {y});
        OnlyTrans(w, v, r, x, y, k, {y});
    }
  }
}
