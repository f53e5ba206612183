/** The worker as an object: the event loop and its handlers with their loops and
    in-place updates, each shown to compute what the functions of Engine say, so that
    every execution is one of the runs described in Runs. */
module Workers {
  import opened Calls
  import opened Engine
  import opened Runs

  /** The answers still to come after one has been taken. */
  function Rest<T>(answers: seq<T>): seq<T> {
    if answers == [] then [] else answers[1..]
  }

  class Worker {
    const cfg: Settings

    var peers: map<int, Peer>
    var calls: seq<Call>

    // What the kernel keeps for this worker.
    var armed: map<int, Interest>
    var now: int

    // Answers still to come.
    var ticks: seq<nat>
    var readAnswers: seq<ReadAnswer>
    var writeAnswers: seq<WriteAnswer>
    var connectAnswers: seq<bool>
    var ejectAnswers: seq<bool>
    var acceptAnswers: seq<AcceptAnswer>

    // Bookkeeping that no code reads.
    ghost var owner: map<int, nat>
    ghost var conns: seq<Conn>
    ghost var refused: seq<nat>
    ghost var sockets: seq<SocketOp>

    ghost function State(): World
      reads this
    {
      World(cfg, peers, armed, owner, conns, refused, sockets, calls, now, ticks,
            readAnswers, writeAnswers, connectAnswers, ejectAnswers, acceptAnswers)
    }

    constructor (cfg: Settings, now: int, ticks: seq<nat>, readAnswers: seq<ReadAnswer>, writeAnswers: seq<WriteAnswer>,
                 connectAnswers: seq<bool>, ejectAnswers: seq<bool>, acceptAnswers: seq<AcceptAnswer>)
      requires OwnDistinct(cfg)
      ensures State() == World(cfg, map[], map[], map[], [], [], Setup(cfg), [], now, ticks,
                               readAnswers, writeAnswers, connectAnswers, ejectAnswers, acceptAnswers)
      ensures Initial(State())
    {
      this.cfg := cfg;
      peers, calls, armed, this.now, this.ticks := map[], [], map[], now, ticks;
      this.readAnswers, this.writeAnswers := readAnswers, writeAnswers;
      this.connectAnswers, this.ejectAnswers, this.acceptAnswers := connectAnswers, ejectAnswers, acceptAnswers;
      owner, conns, refused, sockets := map[], [], [], Setup(cfg);
    }

    // ----- System calls and calls on the shared runtime state -----

    method ReadClock()
      modifies this
      ensures State() == Engine.Tick(old(State()))
    {
      if ticks != [] {
        now, ticks := now + ticks[0], ticks[1..];
      }
    }

    method Read() returns (answer: ReadAnswer)
      modifies this
      ensures answer == Engine.NextRead(old(State()))
      ensures State() == old(State()).(readAnswers := Rest(old(readAnswers)))
    {
      if readAnswers == [] { return ReadWouldBlock; }
      answer, readAnswers := readAnswers[0], readAnswers[1..];
    }

    method Write(remaining: nat) returns (answer: WriteAnswer)
      modifies this
      ensures answer == Engine.NextWrite(old(State()), remaining)
      ensures State() == old(State()).(writeAnswers := Rest(old(writeAnswers)))
    {
      if writeAnswers == [] { return WriteWouldBlock; }
      answer, writeAnswers := writeAnswers[0], writeAnswers[1..];
      if answer.Wrote? && answer.count > remaining { answer := Wrote(remaining); }
    }

    method SocketError() returns (healthy: bool)
      modifies this
      ensures healthy == Engine.SocketHealthy(old(State()))
      ensures State() == old(State()).(connectAnswers := Rest(old(connectAnswers)))
    {
      if connectAnswers == [] { return false; }
      healthy, connectAnswers := connectAnswers[0], connectAnswers[1..];
    }

    method Accept() returns (answer: AcceptAnswer)
      modifies this
      ensures answer == Engine.NextAccept(old(State()))
      ensures State() == old(State()).(acceptAnswers := Rest(old(acceptAnswers)))
    {
      if acceptAnswers == [] { return AcceptWouldBlock; }
      answer := acceptAnswers[0];
      var possible := answer.Accepted? ==> IsFresh(answer.fd) && RouteIsPossible(answer.fd, answer.route);
      if !possible { answer := AcceptWouldBlock; }
      acceptAnswers := acceptAnswers[1..];
    }

    predicate IsFresh(fd: int)
      reads this
      ensures IsFresh(fd) <==> Engine.Fresh(State(), fd)
    {
      fd >= 0 && fd !in peers && fd != cfg.listenerFd && fd != cfg.timerFd && fd != cfg.epollFd
    }

    predicate RouteIsPossible(client: int, route: Route)
      reads this
      ensures IsFresh(client) ==>
                (RouteIsPossible(client, route) <==> Engine.Possible(State(), Accepted(client, route)))
    {
      match route
      case NoBackend => true
      case Refused(b) => b < cfg.backendCount
      case Routed(b, fd) => b < cfg.backendCount && IsFresh(fd) && fd != client
    }

    method Record(call: Call)
      modifies this`calls
      ensures State() == Engine.Record(old(State()), call)
    {
      calls := calls + [call];
    }

    method MaybeEject(index: nat)
      modifies this
      ensures State() == Engine.MaybeEject(old(State()), index)
    {
      if ejectAnswers != [] {
        var eject := ejectAnswers[0];
        ejectAnswers := ejectAnswers[1..];
        if eject { Record(Eject(index)); }
      }
    }

    ghost method Note(fd: int, received: seq<byte>, delivered: seq<byte>)
      modifies this`conns
      ensures State() == Engine.Note(old(State()), fd, received, delivered)
    {
      conns := Engine.Note(State(), fd, received, delivered).conns;
    }

    // ----- Interest and closing -----

    method ModifyFd(fd: int)
      modifies this`armed
      ensures State() == Engine.ModifyFd(old(State()), fd)
    {
      if fd !in peers { return; }
      var peer := peers[fd];
      var output := false;
      if peer.connecting || peer.sent < |peer.outbound| { output := true; }
      var pairCanBuffer := peer.pairedFd in peers && |peers[peer.pairedFd].outbound| < HIGH_WATERMARK;
      var input := false;
      if !peer.connecting && pairCanBuffer { input := true; }
      armed := armed[fd := Interest(input, output)];
    }

    method CloseOne(fd: int)
      modifies this
      ensures State() == Engine.CloseOne(old(State()), fd)
    {
      if fd !in peers { return; }
      armed := armed - {fd};
      sockets := sockets + [Release(fd)];
      peers := peers - {fd};
      owner := owner - {fd};
    }

    method ClosePair(fd: int, backendFailure: bool)
      modifies this
      ensures State() == Engine.ClosePair(old(State()), fd, backendFailure)
    {
      if fd !in peers { return; }
      var pairedFd, backendIndex := peers[fd].pairedFd, peers[fd].backendIndex;
      conns := Engine.Retire(State(), fd, if backendFailure then Failed else Closed).conns;
      CloseOne(fd);
      CloseOne(pairedFd);
      Record(Close(backendIndex));
      if backendFailure {
        Record(Failure(backendIndex));
        MaybeEject(backendIndex);
      }
    }

    // ----- Moving bytes -----

    /** `n` bytes went out: the buffer's position moves, a whole buffer is emptied. */
    method Advance(fd: int, n: nat)
      requires fd in peers && peers[fd].sent + n <= |peers[fd].outbound|
      modifies this
      ensures State() == Engine.Sent(old(State()), fd, n)
    {
      var peer := peers[fd];
      ReadClock();
      Note(fd, [], peer.outbound[peer.sent..peer.sent + n]);
      peer := peer.(sent := peer.sent + n, lastActivity := now);
      if peer.sent == |peer.outbound| {
        peer := peer.(outbound := [], sent := 0);
      }
      peers := peers[fd := peer];
    }

    method Flush(fd: int)
      modifies this
      ensures State() == Engine.Flush(old(State()), fd)
    {
      while fd in peers
        invariant Engine.Flush(State(), fd) == Engine.Flush(old(State()), fd)
        decreases |writeAnswers|
      {
        var peer := peers[fd];
        if peer.connecting || peer.sent >= |peer.outbound| {
          if peer.sent >= |peer.outbound| {
            peers := peers[fd := peer.(outbound := [], sent := 0)];
          }
          return;
        }
        ghost var before := State();
        var answer := Write(|peer.outbound| - peer.sent);
        match answer {
          case Wrote(n) =>
            if n == 0 {
              AfterFailure(before, State(), fd);
              ClosePair(fd, peer.backendSide);
              return;
            }
            AfterCount(before, State(), fd, n);
            Advance(fd, n);
            if peer.sent + n == |peer.outbound| {
              ModifyFd(peer.pairedFd);
              return;
            }
          case WriteWouldBlock =>
            AfterBlock(before, State(), fd);
            return;
          case WriteInterrupted =>
            AfterInterrupt(before, State(), fd);
          case WriteError =>
            AfterFailure(before, State(), fd);
            ClosePair(fd, peer.backendSide);
            return;
        }
      }
    }

    /** A chunk from `fd` goes into the partner's buffer and on to its socket. */
    method Forward(fd: int, chunk: Chunk)
      requires fd in peers && peers[fd].pairedFd in peers
      modifies this
      ensures State() == Engine.Forward(old(State()), fd, chunk)
    {
      ReadClock();
      Note(fd, chunk, []);
      var source := peers[fd].(lastActivity := now);
      peers := peers[fd := source];
      var paired := peers[source.pairedFd];
      peers := peers[source.pairedFd := paired.(lastActivity := now, outbound := paired.outbound + chunk)];
      if source.backendSide {
        Record(FromBackend(source.backendIndex, |chunk|));
      } else {
        Record(FromClient(source.backendIndex, |chunk|));
      }
      Flush(source.pairedFd);
      ModifyFd(fd);
      ModifyFd(source.pairedFd);
    }

    method ReadAvailable(fd: int)
      modifies this
      ensures State() == Engine.ReadAvailable(old(State()), fd)
    {
      while fd in peers
        invariant Engine.ReadAvailable(State(), fd) == Engine.ReadAvailable(old(State()), fd)
        decreases |readAnswers|
      {
        var pairedFd := peers[fd].pairedFd;
        var answer := Read();
        match answer {
          case Data(chunk) =>
            if pairedFd !in peers {
              ReadClock();
              ClosePair(fd, false);
              return;
            }
            Forward(fd, chunk);
            if pairedFd in peers && |peers[pairedFd].outbound| >= HIGH_WATERMARK {
              return;
            }
          case Eof =>
            ClosePair(fd, false);
            return;
          case ReadWouldBlock =>
            return;
          case ReadInterrupted =>
          case ReadError =>
            ClosePair(fd, peers[fd].backendSide);
            return;
        }
      }
    }

    // ----- Connecting -----

    method Join(client: int, backend: int, index: nat)
      modifies this
      ensures State() == Engine.Join(old(State()), client, backend, index)
    {
      ReadClock();
      Record(Open(index));
      assert State() == Engine.Record(Engine.Tick(old(State())), Open(index));
      var deadline := now + cfg.connectTimeout;
      peers := peers[client := Peer(backend, index, false, false, now, deadline, now, [], 0)];
      peers := peers[backend := Peer(client, index, true, true, now, deadline, now, [], 0)];
      armed := armed[client := Interest(true, false)];
      armed := armed[backend := Interest(false, true)];
      Enroll(client, backend, index);
    }

    ghost method Enroll(client: int, backend: int, index: nat)
      modifies this`owner, this`conns, this`sockets
      ensures owner == old(owner)[client := |old(conns)|][backend := |old(conns)|]
      ensures conns == old(conns) + [NewConn(index, client, backend, now)]
      ensures sockets == old(sockets) + [Obtain(client)] + [Obtain(backend)]
    {
      owner := owner[client := |conns|][backend := |conns|];
      conns := conns + [NewConn(index, client, backend, now)];
      sockets := sockets + [Obtain(client)] + [Obtain(backend)];
    }

    method AttachBackend(client: int, route: Route)
      modifies this
      ensures State() == Engine.AttachBackend(old(State()), client, route)
    {
      match route {
        case NoBackend =>
          sockets := sockets + [Obtain(client)] + [Release(client)];
        case Refused(index) =>
          refused := refused + [index];
          Record(Failure(index));
          MaybeEject(index);
          sockets := sockets + [Obtain(client)] + [Release(client)];
        case Routed(index, backend) =>
          Join(client, backend, index);
      }
    }

    method AcceptClients()
      modifies this
      ensures State() == Engine.AcceptClients(old(State()))
    {
      while true
        invariant Engine.AcceptClients(State()) == Engine.AcceptClients(old(State()))
        decreases |acceptAnswers|
      {
        var answer := Accept();
        match answer {
          case AcceptWouldBlock => return;
          case AcceptInterrupted =>
          case AcceptError => return;
          case Accepted(client, route) => AttachBackend(client, route);
        }
      }
    }

    method FinishConnect(fd: int)
      modifies this
      ensures State() == Engine.FinishConnect(old(State()), fd)
    {
      if fd !in peers { return; }
      var healthy := SocketError();
      if !healthy {
        ClosePair(fd, true);
        return;
      }
      Establish(fd);
      Flush(fd);
      ModifyFd(fd);
    }

    /** The connect has succeeded: its latency and the backend's health are recorded. */
    method Establish(fd: int)
      requires fd in peers
      modifies this
      ensures State() == Engine.Established(old(State()), fd)
    {
      ReadClock();
      var peer := peers[fd].(connecting := false, lastActivity := now);
      peers := peers[fd := peer];
      Record(Latency(peer.backendIndex, peer.lastActivity - peer.connectStartedAt));
      Record(Healthy(peer.backendIndex));
    }

    // ----- Timer and shutdown -----

    /** Visits the map in an arbitrary order, collects the expired clients, closes them. */
    method ReapTimeouts() returns (ghost order: seq<int>)
      modifies this
      ensures Visits(order, old(peers.Keys)) && State() == Engine.ReapTimeouts(old(State()), order)
    {
      ReadClock();
      ghost var ticked := State();
      var expired: seq<(int, bool)>, todo := [], peers.Keys;
      order := [];
      while todo != {}
        invariant State() == ticked && todo <= peers.Keys
        invariant Visits(order, peers.Keys - todo)
        invariant expired == Engine.ExpiredList(ticked, order)
        decreases todo
      {
        var fd := Pick(todo);
        todo := todo - {fd};
        assert (order + [fd])[..|order|] == order;
        order := order + [fd];
        var peer := peers[fd];
        if !peer.backendSide {
          var connecting := peer.pairedFd in peers && peers[peer.pairedFd].connecting;
          if connecting && peers[peer.pairedFd].connectDeadline <= now {
            expired := expired + [(fd, true)];
          } else if !connecting && peer.lastActivity + cfg.idleTimeout <= now {
            expired := expired + [(fd, false)];
          }
        }
      }
      var i := 0;
      while i < |expired|
        invariant 0 <= i <= |expired|
        invariant Engine.ReapAll(State(), expired[i..]) == Engine.ReapAll(ticked, expired)
      {
        if expired[i].1 { Record(ConnectTimeout); } else { Record(IdleTimeout); }
        ClosePair(expired[i].0, expired[i].1);
        assert expired[i..][1..] == expired[i + 1..];
        i := i + 1;
      }
    }

    method Shutdown() returns (ghost order: seq<int>)
      modifies this
      ensures Visits(order, old(peers.Keys)) && State() == Engine.Shutdown(old(State()), order)
    {
      var openFds: seq<int>, todo := [], peers.Keys;
      while todo != {}
        invariant State() == old(State()) && todo <= peers.Keys
        invariant Visits(openFds, peers.Keys - todo)
        decreases todo
      {
        var fd := Pick(todo);
        openFds, todo := openFds + [fd], todo - {fd};
      }
      order := openFds;
      var i := 0;
      while i < |openFds|
        invariant 0 <= i <= |openFds|
        invariant Engine.CloseAll(State(), openFds[i..]) == Engine.CloseAll(old(State()), openFds)
      {
        ClosePair(openFds[i], false);
        assert openFds[i..][1..] == openFds[i + 1..];
        i := i + 1;
      }
      sockets := sockets + [Release(cfg.listenerFd)] + [Release(cfg.timerFd)] + [Release(cfg.epollFd)];
    }

    // ----- The event loop -----

    method Dispatch(ev: Event)
      modifies this
      ensures Handled(old(State()), ev, State())
    {
      ghost var start := State();
      ghost var order := AnyOrder(peers.Keys);
      if ev.fd == cfg.listenerFd {
        AcceptClients();
      } else if ev.fd == cfg.timerFd {
        order := ReapTimeouts();
      } else if ev.fd in peers {
        if ev.hangup {
          ClosePair(ev.fd, peers[ev.fd].backendSide);
        } else {
          if peers[ev.fd].connecting && ev.output {
            FinishConnect(ev.fd);
          }
          if ev.fd in peers && ev.input {
            ReadAvailable(ev.fd);
          }
          if ev.fd in peers && ev.output {
            Flush(ev.fd);
          }
        }
      }
      assert State() == HandleEvent(start, ev, order);
    }

    /** Waits for one batch after another, handles each batch event by event, and shuts
        down when asked to stop.  A batch the kernel cannot report is an empty one.  The run
        starts in the state on entry, waits at the places `at`, one for each batch and in
        order, handles an event at every other place, and leaves none unhandled. */
    method Run(waits: seq<seq<Event>>)
      returns (ghost run: seq<Loop>, ghost at: seq<nat>, ghost order: seq<int>)
      requires Initial(State())
      modifies this
      ensures IsRun(run) && run[0].w == old(State()) && run[|run| - 1].pending == []
      ensures |at| == |waits| && Serves(run, at, waits)
      ensures Visits(order, run[|run| - 1].w.peers.Keys)
      ensures State() == Engine.Shutdown(run[|run| - 1].w, order)
    {
      run, at := [Loop(State(), [])], [];
      var i := 0;
      while i < |waits|
        invariant 0 <= i <= |waits| && |at| == i
        invariant Serving(run, at, waits, old(State()), Loop(State(), []))
      {
        var events := Wait(waits[i]);
        run, at := WaitServes(run, at, waits, old(State()), Loop(State(), []), Loop(State(), events));
        var j := 0;
        while j < |events|
          invariant 0 <= j <= |events|
          invariant Serving(run, at, waits, old(State()), Loop(State(), events[j..]))
        {
          ghost var before := Loop(State(), events[j..]);
          Dispatch(events[j]);
          assert events[j..][1..] == events[j + 1..];
          run := EventServes(run, at, waits, old(State()), before, Loop(State(), events[j + 1..]));
          j := j + 1;
        }
        i := i + 1;
      }
      order := Shutdown();
    }

    method Wait(reported: seq<Event>) returns (events: seq<Event>)
      ensures Batch(State(), events) && events == if Batch(State(), reported) then reported else []
    {
      events := [];
      if IsBatch(reported) { events := reported; }
    }

    predicate IsBatch(events: seq<Event>)
      reads this
      ensures IsBatch(events) <==> Batch(State(), events)
    {
      && Distinct(events)
      && forall i | 0 <= i < |events| && events[i].fd in armed ::
           && (events[i].input ==> armed[events[i].fd].input)
           && (events[i].output ==> armed[events[i].fd].output)
    }
  }

  /** A write loop that has taken one answer; the others continue from there. */
  predicate Answered(w: World, v: World, fd: int) {
    && fd in w.peers && !w.peers[fd].connecting && w.peers[fd].sent < |w.peers[fd].outbound|
    && v == w.(writeAnswers := Rest(w.writeAnswers))
  }

  function Remaining(w: World, fd: int): nat
    requires fd in w.peers && w.peers[fd].sent < |w.peers[fd].outbound|
  {
    |w.peers[fd].outbound| - w.peers[fd].sent
  }

  /** How a write loop ends: on a failed write or one that takes nothing. */
  lemma AfterFailure(w: World, v: World, fd: int)
    requires Answered(w, v, fd)
    requires Engine.NextWrite(w, Remaining(w, fd)).WriteError? || Engine.NextWrite(w, Remaining(w, fd)) == Wrote(0)
    ensures Engine.Flush(w, fd) == Engine.ClosePair(v, fd, w.peers[fd].backendSide)
  {
  }

  lemma AfterBlock(w: World, v: World, fd: int)
    requires Answered(w, v, fd) && Engine.NextWrite(w, Remaining(w, fd)).WriteWouldBlock?
    ensures Engine.Flush(w, fd) == v
  {
  }

  lemma AfterInterrupt(w: World, v: World, fd: int)
    requires Answered(w, v, fd) && Engine.NextWrite(w, Remaining(w, fd)).WriteInterrupted?
    ensures Engine.Flush(w, fd) == Engine.Flush(v, fd)
  {
  }

  /** How it goes on after a write that took something. */
  lemma AfterCount(w: World, v: World, fd: int, n: nat)
    requires Answered(w, v, fd) && n > 0 && Engine.NextWrite(w, Remaining(w, fd)) == Wrote(n)
    ensures var s := Engine.Sent(v, fd, n);
            Engine.Flush(w, fd) ==
            if n == Remaining(w, fd) then Engine.ModifyFd(s, w.peers[fd].pairedFd) else Engine.Flush(s, fd)
  {
  }

  /** An arbitrary member, as when iterating over a hash map. */
  method Pick<T(==)>(s: set<T>) returns (x: T)
    requires s != {}
    ensures x in s
  {
    x :| x in s;
  }

  ghost function SomeMember<T>(s: set<T>): (x: T)
    requires s != {}
    ensures x in s
  {
    var x :| x in s;
    x
  }

  ghost function AnyOrder(fds: set<int>): (order: seq<int>)
    ensures Visits(order, fds)
  {
    if fds == {} then []
    else
      var fd := SomeMember(fds);
      AnyOrder(fds - {fd}) + [fd]
  }

  /** At place `i` of a run the worker waits, and the kernel reports `wait`, or nothing if
      it cannot report that. */
  predicate WaitsAt(run: seq<Loop>, i: nat, wait: seq<Event>)
    requires i + 1 < |run|
  {
    run[i].pending == [] && run[i + 1].pending == if Batch(run[i].w, wait) then wait else []
  }

  /** The run waits for the first batches at the places `at`, in order, and handles an event
      everywhere else. */
  ghost predicate Serves(run: seq<Loop>, at: seq<nat>, waits: seq<seq<Event>>) {
    && |at| <= |waits|
    && (forall i, j | 0 <= i < j < |at| :: at[i] < at[j])
    && (forall i | 0 <= i < |at| :: at[i] + 1 < |run| && WaitsAt(run, at[i], waits[i]))
    && (forall i: nat | i + 1 < |run| && i !in at :: run[i].pending != [])
  }

  /** A run from `start` that has got to `now` in this way. */
  ghost predicate Serving(run: seq<Loop>, at: seq<nat>, waits: seq<seq<Event>>, start: World, now: Loop) {
    IsRun(run) && run[0].w == start && run[|run| - 1] == now && Serves(run, at, waits)
  }

  lemma WaitServes(run: seq<Loop>, at: seq<nat>, waits: seq<seq<Event>>, start: World, now: Loop, next: Loop)
    returns (longer: seq<Loop>, more: seq<nat>)
    requires Serving(run, at, waits, start, now) && now.pending == [] && |at| < |waits|
    requires next.w == now.w && Batch(now.w, next.pending)
    requires next.pending == if Batch(now.w, waits[|at|]) then waits[|at|] else []
    ensures Serving(longer, more, waits, start, next) && |more| == |at| + 1
  {
    longer, more := Extend(run, next), at + [|run| - 1];
    OneMoreWait(run, at, waits, longer);
  }

  lemma OneMoreWait(run: seq<Loop>, at: seq<nat>, waits: seq<seq<Event>>, longer: seq<Loop>)
    requires run != [] && Serves(run, at, waits) && |at| < |waits| && run <= longer && |longer| == |run| + 1
    requires WaitsAt(longer, |run| - 1, waits[|at|])
    ensures Serves(longer, at + [|run| - 1], waits)
  {
    var more := at + [|run| - 1];
    forall i | 0 <= i < |more| ensures more[i] + 1 < |longer| && WaitsAt(longer, more[i], waits[i]) {
      if i < |at| { assert WaitsAt(run, at[i], waits[i]); }
    }
    assert more[|at|] == |run| - 1 && forall j | 0 <= j < |at| :: more[j] == at[j];
  }

  lemma EventServes(run: seq<Loop>, at: seq<nat>, waits: seq<seq<Event>>, start: World, now: Loop, next: Loop)
    returns (longer: seq<Loop>)
    requires Serving(run, at, waits, start, now) && now.pending != [] && next.pending == now.pending[1..]
    requires Handled(now.w, now.pending[0], next.w)
    ensures Serving(longer, at, waits, start, next)
  {
    longer := Extend(run, next);
    forall i | 0 <= i < |at| ensures at[i] + 1 < |longer| && WaitsAt(longer, at[i], waits[i]) {
      assert WaitsAt(run, at[i], waits[i]);
    }
  }

  ghost function Extend(run: seq<Loop>, next: Loop): (longer: seq<Loop>)
    requires IsRun(run) && Next(run[|run| - 1], next)
    ensures IsRun(longer) && |longer| == |run| + 1 && longer[|run|] == next && run <= longer
  {
    run + [next]
  }
}
