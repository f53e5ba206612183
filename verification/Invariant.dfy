/** What every state of a worker satisfies, and that each elementary change keeps it. */
module Invariant {
  import opened Calls
  import opened Outcomes
  import opened Engine

  // ----- Bookkeeping of the counters -----

  function FamilyBooked(c: Conn, f: Family): nat {
    match f
    case Active => if c.fate.Alive? then 1 else 0
    case Total => 1
    case Errors => if c.fate.Failed? then 1 else 0
    case BytesIn => |c.client.received|
    case BytesOut => |c.backend.received|
  }

  /** What one connection contributes to a counter. */
  function Booked(c: Conn, cell: Cell): nat {
    match cell
    case PerBackend(f, b) => if c.index == b then FamilyBooked(c, f) else 0
    case Global(f) => FamilyBooked(c, f)
    case _ => 0
  }

  function SumBooked(conns: seq<Conn>, cell: Cell): nat {
    if conns == [] then 0
    else SumBooked(conns[..|conns| - 1], cell) + Booked(conns[|conns| - 1], cell)
  }

  /** What the backends that refused at once contribute to a counter. */
  function SumRefused(refused: seq<nat>, cell: Cell): nat {
    if refused == [] then 0
    else SumRefused(refused[..|refused| - 1], cell) + RefusalBooked(refused[|refused| - 1], cell)
  }

  function RefusalBooked(index: nat, cell: Cell): nat {
    if cell == Global(Errors) || cell == PerBackend(Errors, index) then 1 else 0
  }

  lemma {:induction false} SumBookedUpdate(conns: seq<Conn>, k: nat, c: Conn, cell: Cell)
    requires k < |conns|
    ensures SumBooked(conns[k := c], cell) + Booked(conns[k], cell) == SumBooked(conns, cell) + Booked(c, cell)
  {
    var n := |conns| - 1;
    if k == n {
      assert conns[k := c][..n] == conns[..n];
    } else {
      assert conns[k := c][..n] == conns[..n][k := c];
      SumBookedUpdate(conns[..n], k, c, cell);
    }
  }

  lemma SumBookedAtLeast(conns: seq<Conn>, k: nat, cell: Cell)
    requires k < |conns|
    ensures SumBooked(conns, cell) >= Booked(conns[k], cell)
    decreases |conns|
  {
    if k < |conns| - 1 {
      SumBookedAtLeast(conns[..|conns| - 1], k, cell);
    }
  }

  predicate Counted(cell: Cell) {
    cell.PerBackend? || cell.Global?
  }

  /** Every counter, as far as this worker's calls move it, is the sum over the
      worker's connections and refusals. */
  ghost predicate Books(w: World) {
    && Disciplined(w.calls)
    && InRange(w.calls, w.cfg.backendCount)
    && forall cell | Counted(cell) :: Net(w.calls, cell) == SumBooked(w.conns, cell) + SumRefused(w.refused, cell)
  }

  // ----- Descriptors and connections -----

  /** Every descriptor obtained is one of the worker's own, or in `peers`, or has been
      closed, exactly once. */
  predicate Holding(w: World) {
    OpenAfter(w.sockets) == Some(w.peers.Keys + Own(w.cfg))
  }

  ghost predicate Sockets(w: World) {
    && Holding(w)
    && w.armed.Keys == w.peers.Keys && w.owner.Keys == w.peers.Keys
    && forall fd | fd in w.peers :: fd >= 0 && fd != w.cfg.listenerFd && fd != w.cfg.timerFd && fd != w.cfg.epollFd
  }

  predicate OwnerOk(w: World, fd: int)
    requires fd in w.peers && fd in w.owner
  {
    && w.owner[fd] < |w.conns|
    && w.conns[w.owner[fd]].fate.Alive?
    && w.conns[w.owner[fd]].Of(w.peers[fd].backendSide).fd == fd
  }

  function Pending(p: Peer): seq<byte> {
    if p.sent <= |p.outbound| then p.outbound[p.sent..] else []
  }

  /** What the clock shows when it is read next. */
  function NextTime(w: World): int {
    if w.ticks == [] then w.now else w.now + w.ticks[0]
  }

  function Later(a: int, b: int): int {
    if a > b then a else b
  }

  /** The last time a byte was read from either socket or written to `e`. */
  function LastTraffic(e: End, other: End): int {
    Later(Later(e.lastRead, other.lastRead), e.lastWrite)
  }

  /** One socket of a live connection: it is paired with the other one, its buffer is
      bounded, and the bytes read from the other one are those written to it followed by
      those still pending in its buffer.  A client socket's last activity is exactly its
      last traffic; a backend socket's may also be the completion of its connect. */
  predicate SideOk(w: World, k: nat, side: bool)
    requires k < |w.conns|
  {
    var e, other := w.conns[k].Of(side), w.conns[k].Of(!side);
    && e.fd != other.fd
    && e.fd in w.peers && e.fd in w.owner && w.owner[e.fd] == k
    && var p := w.peers[e.fd];
    && p.pairedFd == other.fd
    && p.backendSide == side
    && p.backendIndex == w.conns[k].index < w.cfg.backendCount
    && p.connectStartedAt == w.conns[k].openedAt <= w.now
    && p.connectDeadline == w.conns[k].openedAt + w.cfg.connectTimeout
    && (p.connecting ==> side)
    && (p.sent < |p.outbound| || (p.sent == 0 && p.outbound == []))
    && |p.outbound| < HIGH_WATERMARK + BUFFER_SIZE
    && other.received == e.delivered + Pending(p)
    && LastTraffic(e, other) <= p.lastActivity <= w.now
    && (!side ==> p.lastActivity == LastTraffic(e, other))
  }

  /** The interest registered for one socket of a live connection. */
  predicate ArmOk(w: World, k: nat, side: bool)
    requires k < |w.conns|
  {
    var fd, other := w.conns[k].Of(side).fd, w.conns[k].Of(!side).fd;
    fd in w.peers && other in w.peers && fd in w.armed ==>
      && var p := w.peers[fd];
      && w.armed[fd].input == (!p.connecting && |w.peers[other].outbound| < HIGH_WATERMARK)
      && (p.connecting || p.sent < |p.outbound| ==> w.armed[fd].output)
  }

  predicate EndedOk(c: Conn) {
    c.backend.delivered <= c.client.received && c.client.delivered <= c.backend.received
  }

  ghost predicate Owners(w: World) {
    w.peers.Keys == w.owner.Keys && forall fd | fd in w.peers :: OwnerOk(w, fd)
  }

  ghost predicate Links(w: World) {
    forall k: nat, side: bool | k < |w.conns| && w.conns[k].fate.Alive? :: SideOk(w, k, side)
  }

  ghost predicate Ended(w: World) {
    forall k: nat | k < |w.conns| && !w.conns[k].fate.Alive? :: EndedOk(w.conns[k])
  }

  ghost predicate Arms(w: World, except: set<int>) {
    forall k: nat, side: bool | k < |w.conns| && w.conns[k].fate.Alive? && w.conns[k].Of(side).fd !in except ::
      ArmOk(w, k, side)
  }

  /** The invariant, except for the interest of the descriptors being worked on. */
  ghost predicate InvExcept(w: World, except: set<int>) {
    Sockets(w) && Owners(w) && Links(w) && Ended(w) && Arms(w, except) && Books(w)
  }

  ghost predicate Inv(w: World) {
    InvExcept(w, {})
  }

  /** The invariant, leaving out the interest of descriptors altogether. */
  ghost predicate Sound(w: World) {
    InvExcept(w, w.peers.Keys)
  }

  /** The connection of a registered descriptor. */
  lemma OwnerOf(w: World, fd: int, except: set<int>) returns (k: nat, side: bool)
    requires InvExcept(w, except) && fd in w.peers
    ensures k == w.owner[fd] < |w.conns| && w.conns[k].fate.Alive? && side == w.peers[fd].backendSide
    ensures w.conns[k].Of(side).fd == fd && w.conns[k].Of(!side).fd == w.peers[fd].pairedFd
    ensures SideOk(w, k, side) && SideOk(w, k, !side)
  {
    assert OwnerOk(w, fd);
    k, side := w.owner[fd], w.peers[fd].backendSide;
    assert SideOk(w, k, side) && SideOk(w, k, !side);
  }

  // ----- How a state may evolve -----

  /** One direction's buffer when no byte is read from its source: untouched except for
      the position, which only moves forward, or emptied. */
  predicate Drained(p: Peer, p': Peer) {
    p'.outbound == [] || (p'.outbound == p.outbound && p'.sent >= p.sent)
  }

  /** A connection keeps its identity, its histories only grow, and once it has ended
      it is never touched again.  Bytes are read only from descriptors in `from`. */
  predicate ConnEvolves(c: Conn, c': Conn, from: set<int>) {
    && c'.index == c.index && c'.openedAt == c.openedAt && c'.client.fd == c.client.fd && c'.backend.fd == c.backend.fd
    && (!c.fate.Alive? ==> c' == c)
    && (forall side :: ReadsEvolve(c.Of(side), c'.Of(side), from))
  }

  predicate ReadsEvolve(e: End, e': End, from: set<int>) {
    && e.received <= e'.received && e.delivered <= e'.delivered
    && (e.fd !in from ==> e'.received == e.received)
  }

  predicate BufferEvolves(w: World, w': World, k: nat, side: bool, from: set<int>)
    requires k < |w'.conns|
  {
    var fd := w'.conns[k].Of(side).fd;
    w'.conns[k].fate.Alive? && fd in w'.peers ==>
      && (k < |w.conns| ==> fd in w.peers && (w'.peers[fd].connecting ==> w.peers[fd].connecting))
      && (w'.conns[k].Of(!side).fd !in from ==>
            if k < |w.conns| then Drained(w.peers[fd], w'.peers[fd]) else w'.peers[fd].outbound == [])
  }

  ghost predicate Evolves(w: World, w': World, from: set<int>) {
    && w.cfg == w'.cfg && w.now <= w'.now && w.calls <= w'.calls
    && |w.conns| <= |w'.conns|
    && (forall k: nat | k < |w.conns| :: ConnEvolves(w.conns[k], w'.conns[k], from))
    && (forall k: nat, side: bool | k < |w'.conns| :: BufferEvolves(w, w', k, side, from))
  }

  lemma EvolvesRefl(w: World, from: set<int>)
    ensures Evolves(w, w, from)
  {
    forall k: nat, side: bool | k < |w.conns| ensures BufferEvolves(w, w, k, side, from) {}
  }

  lemma EvolvesTrans(a: World, b: World, c: World, from: set<int>)
    requires Evolves(a, b, from) && Evolves(b, c, from)
    requires Links(b) && Links(c)
    ensures Evolves(a, c, from)
  {
    forall k: nat | k < |a.conns| ensures ConnEvolves(a.conns[k], c.conns[k], from) {
      assert ConnEvolves(a.conns[k], b.conns[k], from) && ConnEvolves(b.conns[k], c.conns[k], from);
      forall side ensures ReadsEvolve(a.conns[k].Of(side), c.conns[k].Of(side), from) {
        assert ReadsEvolve(a.conns[k].Of(side), b.conns[k].Of(side), from);
        assert ReadsEvolve(b.conns[k].Of(side), c.conns[k].Of(side), from);
      }
    }
    forall k: nat, side: bool | k < |c.conns| ensures BufferEvolves(a, c, k, side, from) {
      assert BufferEvolves(b, c, k, side, from);
      if k < |b.conns| {
        assert ConnEvolves(b.conns[k], c.conns[k], from);
        assert BufferEvolves(a, b, k, side, from);
        if b.conns[k].fate.Alive? {
          assert SideOk(b, k, side);
        }
      }
    }
  }

  lemma EvolvesMore(w: World, w': World, from: set<int>, more: set<int>)
    requires Evolves(w, w', from) && from <= more
    ensures Evolves(w, w', more)
  {
    forall k: nat, side: bool | k < |w'.conns| ensures BufferEvolves(w, w', k, side, more) {
      assert BufferEvolves(w, w', k, side, from);
    }
    forall k: nat | k < |w.conns| ensures ConnEvolves(w.conns[k], w'.conns[k], more) {
      assert ConnEvolves(w.conns[k], w'.conns[k], from);
      forall side ensures ReadsEvolve(w.conns[k].Of(side), w'.conns[k].Of(side), more) {
        assert ReadsEvolve(w.conns[k].Of(side), w'.conns[k].Of(side), from);
      }
    }
  }
}
