/** What a new connection looks like, and that accepting touches no old one. */
module Arrivals {
  import opened Engine
  import opened Handlers
  import opened Invariant
  import opened Steps

  /** Connection `k` was made between `from` and now, and nothing has happened to it yet:
      nothing was read or written, the client is connected and registered for input, and
      the backend is connecting and registered for output. */
  predicate Newcomer(r: World, k: nat, from: int)
    requires k < |r.conns|
  {
    var c := r.conns[k];
    var client, backend, t, deadline := c.client.fd, c.backend.fd, c.openedAt, c.openedAt + r.cfg.connectTimeout;
    && from <= t <= r.now
    && c == Conn(c.index, t, End(client, [], [], t, t), End(backend, [], [], t, t), Alive)
    && client in r.peers && r.peers[client] == Peer(backend, c.index, false, false, t, deadline, t, [], 0)
    && backend in r.peers && r.peers[backend] == Peer(client, c.index, true, true, t, deadline, t, [], 0)
    && client in r.armed && r.armed[client] == Interest(true, false)
    && backend in r.armed && r.armed[backend] == Interest(false, true)
  }

  /** Every registered descriptor keeps its peer and its interest. */
  predicate Undisturbed(w: World, r: World) {
    && (forall x | x in w.peers :: x in r.peers && r.peers[x] == w.peers[x])
    && (forall x | x in w.armed :: x in r.armed && r.armed[x] == w.armed[x])
  }

  ghost predicate Arrived(w: World, r: World) {
    && r.cfg == w.cfg && w.now <= r.now && NextTime(w) <= NextTime(r)
    && w.conns <= r.conns && Undisturbed(w, r)
    && forall k: nat | |w.conns| <= k < |r.conns| :: Newcomer(r, k, NextTime(w))
  }

  lemma ArrivedTrans(a: World, b: World, c: World)
    requires Arrived(a, b) && Arrived(b, c)
    ensures Arrived(a, c)
  {
    forall k: nat | |a.conns| <= k < |c.conns| ensures Newcomer(c, k, NextTime(a)) {
      if k < |b.conns| {
        assert c.conns[k] == b.conns[k] && Newcomer(b, k, NextTime(a));
      } else {
        assert Newcomer(c, k, NextTime(b));
      }
    }
  }

  lemma NobodyArrived(w: World, v: World)
    requires v.cfg == w.cfg && v.now == w.now && v.ticks == w.ticks && v.conns == w.conns
    requires v.peers == w.peers && v.armed == w.armed
    ensures Arrived(w, v)
  {
  }

  lemma JoinArrived(w: World, client: int, backend: int, index: nat)
    requires Sockets(w) && Fresh(w, client) && Fresh(w, backend) && client != backend
    ensures Arrived(w, Join(w, client, backend, index))
  {
    var r := Join(w, client, backend, index);
    assert r.conns[|w.conns|] == NewConn(index, client, backend, r.now);
    assert Newcomer(r, |w.conns|, NextTime(w));
    assert client !in w.armed && backend !in w.armed;
  }

  lemma AttachArrived(w: World, client: int, route: Route)
    requires Sockets(w) && Possible(w, Accepted(client, route))
    ensures Arrived(w, AttachBackend(w, client, route))
  {
    match route
    case NoBackend => NobodyArrived(w, AttachBackend(w, client, route));
    case Refused(b) => NobodyArrived(w, AttachBackend(w, client, route));
    case Routed(b, fd) => JoinArrived(w, client, fd, b);
  }

  lemma {:induction false} AcceptArrived(w: World)
    requires Inv(w)
    ensures Arrived(w, AcceptClients(w))
    decreases |w.acceptAnswers|
  {
    var r := AcceptClients(w);
    if w.acceptAnswers == [] {
      NobodyArrived(w, r);
    } else {
      var v := w.(acceptAnswers := w.acceptAnswers[1..]);
      NobodyArrived(w, v);
      AdvanceKeeps(w, v, {});
      match NextAccept(w)
      case Accepted(client, route) =>
        var a := AttachBackend(v, client, route);
        AttachArrived(v, client, route);
        AttachKeeps(v, client, route);
        AcceptArrived(a);
        ArrivedTrans(w, v, a);
        ArrivedTrans(w, a, r);
      case AcceptInterrupted =>
        AcceptArrived(v);
        ArrivedTrans(w, v, r);
      case _ =>
    }
  }
}
