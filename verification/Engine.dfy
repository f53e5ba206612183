/** The per-worker proxy engine as functions on the whole worker state.

    The state holds what the worker stores (`peers`), what the kernel stores for it
    (the epoll interest list), and bookkeeping that no code reads: which connection
    owns a descriptor, the bytes that have passed each socket, the descriptors
    obtained and closed, and the calls made on the shared runtime state.

    Everything the worker learns from outside comes from the answer streams; a stream
    that has run out answers "would block", so every finite run is some choice of
    streams. */
module Engine {
  import opened Calls
  import opened Outcomes

  const BUFFER_SIZE: nat := 64 * 1024
  const HIGH_WATERMARK: nat := 1024 * 1024

  newtype byte = x: int | 0 <= x < 256

  /** A successful read returns between one byte and a full buffer. */
  type Chunk = s: seq<byte> | 1 <= |s| <= BUFFER_SIZE witness [0]

  datatype Peer = Peer(
    pairedFd: int,
    backendIndex: nat,
    backendSide: bool,
    connecting: bool,
    connectStartedAt: int,
    connectDeadline: int,
    lastActivity: int,
    outbound: seq<byte>,
    sent: nat)

  /** The part of an epoll mask that varies; ERR, HUP and RDHUP are always requested. */
  datatype Interest = Interest(input: bool, output: bool)

  /** One socket of a connection: the bytes read from it, the bytes written to it, and
      when that last happened. */
  datatype End = End(fd: int, received: seq<byte>, delivered: seq<byte>, lastRead: int, lastWrite: int)

  datatype Fate = Alive | Closed | Failed

  datatype Conn = Conn(index: nat, openedAt: int, client: End, backend: End, fate: Fate) {
    function Of(backendSide: bool): End {
      if backendSide then backend else client
    }

    function With(backendSide: bool, e: End): Conn {
      if backendSide then this.(backend := e) else this.(client := e)
    }
  }

  datatype SocketOp = Obtain(fd: int) | Release(fd: int)

  datatype ReadAnswer = Data(chunk: Chunk) | Eof | ReadWouldBlock | ReadInterrupted | ReadError
  datatype WriteAnswer = Wrote(count: nat) | WriteWouldBlock | WriteInterrupted | WriteError
  /** What became of an accepted client: the scheduler found no backend, the chosen
      backend refused at once, or a backend socket was obtained. */
  datatype Route = NoBackend | Refused(index: nat) | Routed(index: nat, fd: int)
  datatype AcceptAnswer = Accepted(fd: int, route: Route) | AcceptWouldBlock | AcceptInterrupted | AcceptError

  datatype Settings = Settings(
    listenerFd: int,
    timerFd: int,
    epollFd: int,
    backendCount: nat,
    connectTimeout: nat,
    idleTimeout: nat)

  datatype World = World(
    cfg: Settings,
    peers: map<int, Peer>,
    armed: map<int, Interest>,
    owner: map<int, nat>,
    conns: seq<Conn>,
    refused: seq<nat>,
    sockets: seq<SocketOp>,
    calls: seq<Call>,
    now: int,
    ticks: seq<nat>,
    readAnswers: seq<ReadAnswer>,
    writeAnswers: seq<WriteAnswer>,
    connectAnswers: seq<bool>,
    ejectAnswers: seq<bool>,
    acceptAnswers: seq<AcceptAnswer>)

  // ----- Clock, runtime calls, descriptors -----

  /** Reads the monotone clock. */
  function Tick(w: World): (r: World)
    ensures r.now >= w.now && r == w.(now := r.now, ticks := r.ticks)
  {
    if w.ticks == [] then w else w.(now := w.now + w.ticks[0], ticks := w.ticks[1..])
  }

  function Record(w: World, call: Call): World {
    w.(calls := w.calls + [call])
  }

  /** The failure counter is shared with other threads, so what the worker reads
      there is an answer too. */
  function MaybeEject(w: World, index: nat): World {
    if w.ejectAnswers == [] then w
    else if w.ejectAnswers[0] then Record(w.(ejectAnswers := w.ejectAnswers[1..]), Eject(index))
    else w.(ejectAnswers := w.ejectAnswers[1..])
  }

  /** The descriptors open after a history of socket operations; None if the history
      closes a descriptor that is not open or obtains one that is. */
  function OpenAfter(log: seq<SocketOp>): Option<set<int>> {
    if log == [] then Some({})
    else
      match (OpenAfter(log[..|log| - 1]), log[|log| - 1])
      case (None, _) => None
      case (Some(open), Obtain(fd)) => if fd in open then None else Some(open + {fd})
      case (Some(open), Release(fd)) => if fd in open then Some(open - {fd}) else None
  }

  /** The descriptors a worker holds for itself. */
  function Own(cfg: Settings): set<int> {
    {cfg.listenerFd, cfg.timerFd, cfg.epollFd}
  }

  /** How a worker obtains them, and how it gives them back. */
  function Setup(cfg: Settings): seq<SocketOp> {
    [Obtain(cfg.listenerFd), Obtain(cfg.epollFd), Obtain(cfg.timerFd)]
  }

  function CloseOwn(w: World): World {
    w.(sockets := w.sockets + [Release(w.cfg.listenerFd)] + [Release(w.cfg.timerFd)] + [Release(w.cfg.epollFd)])
  }

  /** The kernel hands out only descriptors that are not open. */
  predicate Fresh(w: World, fd: int) {
    && fd >= 0 && fd !in w.peers
    && fd != w.cfg.listenerFd && fd != w.cfg.timerFd && fd != w.cfg.epollFd
  }

  /** Answers that the kernel and the scheduler can give in this state. */
  predicate Possible(w: World, a: AcceptAnswer) {
    a.Accepted? ==>
      && Fresh(w, a.fd)
      && match a.route
         case NoBackend => true
         case Refused(b) => b < w.cfg.backendCount
         case Routed(b, fd) => b < w.cfg.backendCount && Fresh(w, fd) && fd != a.fd
  }

  function NextAccept(w: World): AcceptAnswer {
    if w.acceptAnswers != [] && Possible(w, w.acceptAnswers[0]) then w.acceptAnswers[0] else AcceptWouldBlock
  }

  function NextRead(w: World): ReadAnswer {
    if w.readAnswers == [] then ReadWouldBlock else w.readAnswers[0]
  }

  /** A write is never longer than what was asked for. */
  function NextWrite(w: World, remaining: nat): WriteAnswer {
    if w.writeAnswers == [] then WriteWouldBlock
    else if w.writeAnswers[0].Wrote? && w.writeAnswers[0].count > remaining then Wrote(remaining)
    else w.writeAnswers[0]
  }

  function SocketHealthy(w: World): bool {
    w.connectAnswers != [] && w.connectAnswers[0]
  }

  // ----- Interest -----

  function Wanted(w: World, fd: int): Interest
    requires fd in w.peers
  {
    var p := w.peers[fd];
    var pairCanBuffer := p.pairedFd in w.peers && |w.peers[p.pairedFd].outbound| < HIGH_WATERMARK;
    Interest(!p.connecting && pairCanBuffer, p.connecting || p.sent < |p.outbound|)
  }

  function ModifyFd(w: World, fd: int): World {
    if fd !in w.peers then w else w.(armed := w.armed[fd := Wanted(w, fd)])
  }

  // ----- Closing -----

  function CloseOne(w: World, fd: int): World {
    if fd !in w.peers then w
    else w.(peers := w.peers - {fd}, armed := w.armed - {fd}, owner := w.owner - {fd},
            sockets := w.sockets + [Release(fd)])
  }

  /** Marks the connection that owns a descriptor as ended. */
  function Retire(w: World, fd: int, fate: Fate): World {
    if fd !in w.owner || w.owner[fd] >= |w.conns| then w
    else w.(conns := w.conns[w.owner[fd] := w.conns[w.owner[fd]].(fate := fate)])
  }

  function ClosePair(w: World, fd: int, backendFailure: bool): (r: World)
    ensures r.readAnswers == w.readAnswers && r.writeAnswers == w.writeAnswers && r.acceptAnswers == w.acceptAnswers
    ensures |r.conns| == |w.conns|
  {
    if fd !in w.peers then w
    else
      var p := w.peers[fd];
      var retired := Retire(w, fd, if backendFailure then Failed else Closed);
      var closed := Record(CloseOne(CloseOne(retired, fd), p.pairedFd), Close(p.backendIndex));
      if backendFailure then MaybeEject(Record(closed, Failure(p.backendIndex)), p.backendIndex) else closed
  }

  // ----- Moving bytes -----

  /** Updates the bookkeeping of the socket behind a descriptor. */
  function Note(w: World, fd: int, received: seq<byte>, delivered: seq<byte>): World {
    if fd !in w.peers || fd !in w.owner || w.owner[fd] >= |w.conns| then w
    else
      var side, k := w.peers[fd].backendSide, w.owner[fd];
      var e := w.conns[k].Of(side);
      var noted := End(e.fd, e.received + received, e.delivered + delivered,
                       if received == [] then e.lastRead else w.now, if delivered == [] then e.lastWrite else w.now);
      w.(conns := w.conns[k := w.conns[k].With(side, noted)])
  }

  /** `n` bytes of the pending output of `fd` went out; a buffer that went out whole is emptied. */
  function Sent(w: World, fd: int, n: nat): World
    requires fd in w.peers && w.peers[fd].sent + n <= |w.peers[fd].outbound|
  {
    var p := w.peers[fd];
    var t := Note(Tick(w), fd, [], p.outbound[p.sent..p.sent + n]);
    var q := p.(lastActivity := t.now, sent := p.sent + n);
    t.(peers := t.peers[fd := if q.sent == |q.outbound| then q.(outbound := [], sent := 0) else q])
  }

  /** Writes pending output until it is gone, the socket would block, or the write fails. */
  function Flush(w: World, fd: int): (r: World)
    ensures r.readAnswers == w.readAnswers && r.acceptAnswers == w.acceptAnswers
    ensures |r.conns| == |w.conns|
    decreases |w.writeAnswers|
  {
    if fd !in w.peers then w
    else
      var p := w.peers[fd];
      if p.connecting || p.sent >= |p.outbound| then
        if p.sent >= |p.outbound| then w.(peers := w.peers[fd := p.(outbound := [], sent := 0)]) else w
      else
        var answer := NextWrite(w, |p.outbound| - p.sent);
        if w.writeAnswers == [] then w
        else
          var v := w.(writeAnswers := w.writeAnswers[1..]);
          match answer
          case Wrote(n) =>
            if n == 0 then ClosePair(v, fd, p.backendSide)
            else if p.sent + n == |p.outbound| then ModifyFd(Sent(v, fd, n), p.pairedFd)
            else Flush(Sent(v, fd, n), fd)
          case WriteWouldBlock => v
          case WriteInterrupted => Flush(v, fd)
          case WriteError => ClosePair(v, fd, p.backendSide)
  }

  /** A chunk read from `fd` is appended to the output of its partner. */
  function Received(w: World, fd: int, chunk: Chunk): World
    requires fd in w.peers && w.peers[fd].pairedFd in w.peers
  {
    var t := Tick(w);
    var s := t.peers[fd].(lastActivity := t.now);
    var peers := t.peers[fd := s];
    var q := peers[s.pairedFd];
    var appended := q.(lastActivity := t.now, outbound := q.outbound + chunk);
    Record(Note(t, fd, chunk, []).(peers := peers[s.pairedFd := appended]),
           if s.backendSide then FromBackend(s.backendIndex, |chunk|) else FromClient(s.backendIndex, |chunk|))
  }

  /** One round of the read loop after data has arrived: append, flush, refresh both masks. */
  function Forward(w: World, fd: int, chunk: Chunk): (r: World)
    requires fd in w.peers && w.peers[fd].pairedFd in w.peers
    ensures r.readAnswers == w.readAnswers && |r.conns| == |w.conns|
  {
    var paired := w.peers[fd].pairedFd;
    ModifyFd(ModifyFd(Flush(Received(w, fd, chunk), paired), fd), paired)
  }

  predicate Throttled(w: World, fd: int) {
    fd in w.peers && |w.peers[fd].outbound| >= HIGH_WATERMARK
  }

  function ReadAvailable(w: World, fd: int): (r: World)
    decreases |w.readAnswers|
  {
    if fd !in w.peers || w.readAnswers == [] then w
    else
      var p, v := w.peers[fd], w.(readAnswers := w.readAnswers[1..]);
      match NextRead(w)
      case Data(chunk) =>
        if p.pairedFd !in w.peers then ClosePair(Tick(v), fd, false)
        else
          var f := Forward(v, fd, chunk);
          if Throttled(f, p.pairedFd) then f else ReadAvailable(f, fd)
      case Eof => ClosePair(v, fd, false)
      case ReadWouldBlock => v
      case ReadInterrupted => ReadAvailable(v, fd)
      case ReadError => ClosePair(v, fd, p.backendSide)
  }

  // ----- Connecting -----

  function NewPeer(w: World, paired: int, index: nat, backendSide: bool): Peer {
    Peer(paired, index, backendSide, backendSide, w.now, w.now + w.cfg.connectTimeout, w.now, [], 0)
  }

  function NewConn(index: nat, client: int, backend: int, now: int): Conn {
    Conn(index, now, End(client, [], [], now, now), End(backend, [], [], now, now), Alive)
  }

  /** Registers a client and its backend socket as a new connection. */
  function Join(w: World, client: int, backend: int, index: nat): World {
    var t := Record(Tick(w), Open(index));
    t.(peers := t.peers[client := NewPeer(t, backend, index, false)][backend := NewPeer(t, client, index, true)],
       armed := t.armed[client := Interest(true, false)][backend := Interest(false, true)],
       owner := t.owner[client := |t.conns|][backend := |t.conns|],
       conns := t.conns + [NewConn(index, client, backend, t.now)],
       sockets := t.sockets + [Obtain(client)] + [Obtain(backend)])
  }

  /** An accepted client that is closed again at once. */
  function TurnAway(w: World, client: int): World {
    w.(sockets := w.sockets + [Obtain(client)] + [Release(client)])
  }

  function AttachBackend(w: World, client: int, route: Route): (r: World)
    ensures r.acceptAnswers == w.acceptAnswers
  {
    match route
    case NoBackend => TurnAway(w, client)
    case Refused(b) =>
      TurnAway(MaybeEject(Record(w.(refused := w.refused + [b]), Failure(b)), b), client)
    case Routed(b, fd) => Join(w, client, fd, b)
  }

  function AcceptClients(w: World): World
    decreases |w.acceptAnswers|
  {
    if w.acceptAnswers == [] then w
    else
      var v := w.(acceptAnswers := w.acceptAnswers[1..]);
      match NextAccept(w)
      case Accepted(client, route) => AcceptClients(AttachBackend(v, client, route))
      case AcceptInterrupted => AcceptClients(v)
      case AcceptWouldBlock => v
      case AcceptError => v
  }

  /** The socket is connected from now on. */
  function Connect(w: World, fd: int): World
    requires fd in w.peers
  {
    var t := Tick(w);
    t.(peers := t.peers[fd := t.peers[fd].(connecting := false, lastActivity := t.now)])
  }

  function Established(w: World, fd: int): World
    requires fd in w.peers
  {
    var v, p := Connect(w, fd), w.peers[fd];
    Record(Record(v, Latency(p.backendIndex, v.now - p.connectStartedAt)), Healthy(p.backendIndex))
  }

  function FinishConnect(w: World, fd: int): World {
    if fd !in w.peers then w
    else
      var v := if w.connectAnswers == [] then w else w.(connectAnswers := w.connectAnswers[1..]);
      if !SocketHealthy(w) then ClosePair(v, fd, true)
      else ModifyFd(Flush(Established(v, fd), fd), fd)
  }

  // ----- Timer and shutdown -----

  /** A visiting order of a set of descriptors: the iteration order of a hash map. */
  ghost predicate Visits(order: seq<int>, fds: set<int>) {
    && (forall i, j | 0 <= i < j < |order| :: order[i] != order[j])
    && (forall fd :: fd in order <==> fd in fds)
  }

  predicate StillConnecting(w: World, fd: int)
    requires fd in w.peers
  {
    w.peers[fd].pairedFd in w.peers && w.peers[w.peers[fd].pairedFd].connecting
  }

  predicate ConnectExpired(w: World, fd: int)
    requires fd in w.peers
  {
    StillConnecting(w, fd) && w.peers[w.peers[fd].pairedFd].connectDeadline <= w.now
  }

  predicate IdleExpired(w: World, fd: int)
    requires fd in w.peers
  {
    !StillConnecting(w, fd) && w.peers[fd].lastActivity + w.cfg.idleTimeout <= w.now
  }

  /** The client descriptors to reap, each with whether its backend never answered. */
  function ExpiredList(w: World, order: seq<int>): seq<(int, bool)> {
    if order == [] then []
    else
      var rest, fd := ExpiredList(w, order[..|order| - 1]), order[|order| - 1];
      if fd !in w.peers || w.peers[fd].backendSide then rest
      else if ConnectExpired(w, fd) then rest + [(fd, true)]
      else if IdleExpired(w, fd) then rest + [(fd, false)]
      else rest
  }

  function ReapOne(w: World, fd: int, connectTimeout: bool): World {
    ClosePair(Record(w, if connectTimeout then ConnectTimeout else IdleTimeout), fd, connectTimeout)
  }

  function ReapAll(w: World, expired: seq<(int, bool)>): World
    decreases |expired|
  {
    if expired == [] then w else ReapAll(ReapOne(w, expired[0].0, expired[0].1), expired[1..])
  }

  function ReapTimeouts(w: World, order: seq<int>): World {
    var t := Tick(w);
    ReapAll(t, ExpiredList(t, order))
  }

  function CloseAll(w: World, order: seq<int>): World
    decreases |order|
  {
    if order == [] then w else CloseAll(ClosePair(w, order[0], false), order[1..])
  }

  function Shutdown(w: World, order: seq<int>): World {
    CloseOwn(CloseAll(w, order))
  }

  // ----- Events -----

  datatype Event = Event(fd: int, input: bool, output: bool, hangup: bool)

  /** `order` is the map's iteration order, used only when the timer fires. */
  function HandleEvent(w: World, ev: Event, order: seq<int>): World {
    if ev.fd == w.cfg.listenerFd then AcceptClients(w)
    else if ev.fd == w.cfg.timerFd then ReapTimeouts(w, order)
    else if ev.fd !in w.peers then w
    else if ev.hangup then ClosePair(w, ev.fd, w.peers[ev.fd].backendSide)
    else
      var a := if w.peers[ev.fd].connecting && ev.output then FinishConnect(w, ev.fd) else w;
      var b := if ev.fd in a.peers && ev.input then ReadAvailable(a, ev.fd) else a;
      if ev.fd in b.peers && ev.output then Flush(b, ev.fd) else b
  }
}
