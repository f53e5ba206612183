/** A backend is ejected exactly when the test after one of its failures says so.

    What the worker reads in the shared failure counter is an answer; over a whole run and
    the shutdown that ends it, the i-th failure recorded meets the i-th answer. */
module Ejections {
  import opened Calls
  import opened Engine
  import opened Handlers
  import opened Runs

  function Failures(log: seq<Call>): (n: nat)
    ensures n <= |log|
  {
    if log == [] then 0 else Failures(log[..|log| - 1]) + (if log[|log| - 1].Failure? then 1 else 0)
  }

  /** The answer that the failure at place `p` of a log met; no answer left ejects nothing. */
  predicate Convicted(log: seq<Call>, answers: seq<bool>, p: nat)
    requires p < |log|
  {
    Failures(log[..p]) < |answers| && answers[Failures(log[..p])]
  }

  predicate EjectedNext(log: seq<Call>, p: nat)
    requires p < |log| && log[p].Failure?
  {
    p + 1 < |log| && log[p + 1] == Eject(log[p].index)
  }

  /** Every failure is followed at once by an ejection of its backend exactly if its answer
      says so. */
  predicate Judged(log: seq<Call>, answers: seq<bool>) {
    forall p | 0 <= p < |log| && log[p].Failure? :: EjectedNext(log, p) <==> Convicted(log, answers, p)
  }

  /** The answers left after `n` of them. */
  function Left(answers: seq<bool>, n: nat): seq<bool> {
    if n <= |answers| then answers[n..] else []
  }

  predicate Tallied(w: World, answers: seq<bool>) {
    Judged(w.calls, answers) && w.ejectAnswers == Left(answers, Failures(w.calls))
  }

  lemma OneMoreCall(log: seq<Call>, call: Call)
    ensures Failures(log + [call]) == Failures(log) + (if call.Failure? then 1 else 0)
    ensures forall p | 0 <= p < |log| :: (log + [call])[..p] == log[..p]
  {
    assert (log + [call])[..|log|] == log;
  }

  lemma CallJudged(log: seq<Call>, call: Call, answers: seq<bool>)
    requires Judged(log, answers) && !call.Failure? && !call.Eject?
    ensures Judged(log + [call], answers) && Failures(log + [call]) == Failures(log)
  {
    OneMoreCall(log, call);
    var more := log + [call];
    forall p | 0 <= p < |more| && more[p].Failure? ensures EjectedNext(more, p) <==> Convicted(more, answers, p) {
      assert EjectedNext(log, p) <==> Convicted(log, answers, p);
    }
  }

  /** A log of a failure and what came of it, which is nothing more or one ejection. */
  lemma JudgedThrough(log: seq<Call>, more: seq<Call>, answers: seq<bool>)
    requires Judged(log, answers) && |log| < |more| && more[..|log|] == log && more[|log|].Failure?
    requires |more| <= |log| + 2 && (|more| == |log| + 2 ==> !more[|log| + 1].Failure?)
    requires EjectedNext(more, |log|) <==> Convicted(more, answers, |log|)
    ensures Judged(more, answers)
  {
    forall p | 0 <= p < |more| && more[p].Failure? ensures EjectedNext(more, p) <==> Convicted(more, answers, p) {
      if p < |log| {
        assert EjectedNext(log, p) <==> Convicted(log, answers, p);
        assert more[..p] == log[..p];
      }
    }
  }

  /** A failure and what its answer makes of it. */
  lemma FailureJudged(log: seq<Call>, b: nat, answers: seq<bool>)
    requires Judged(log, answers)
    ensures var n := Failures(log);
            var more := if n < |answers| && answers[n] then log + [Failure(b)] + [Eject(b)] else log + [Failure(b)];
            Judged(more, answers) && Failures(more) == n + 1
  {
    var n, failed := Failures(log), log + [Failure(b)];
    var more := if n < |answers| && answers[n] then failed + [Eject(b)] else failed;
    OneMoreCall(log, Failure(b));
    OneMoreCall(failed, Eject(b));
    assert more[..|log|] == log;
    JudgedThrough(log, more, answers);
  }

  lemma RecordTallied(w: World, call: Call, answers: seq<bool>)
    requires Tallied(w, answers) && !call.Failure? && !call.Eject?
    ensures Tallied(Record(w, call), answers)
  {
    CallJudged(w.calls, call, answers);
  }

  lemma FailTallied(w: World, b: nat, answers: seq<bool>)
    requires Tallied(w, answers)
    ensures Tallied(MaybeEject(Record(w, Failure(b)), b), answers)
  {
    FailureJudged(w.calls, b, answers);
  }

  lemma ClosePairTallied(w: World, fd: int, failure: bool, answers: seq<bool>)
    requires Tallied(w, answers)
    ensures Tallied(ClosePair(w, fd, failure), answers)
  {
    if fd in w.peers {
      var p := w.peers[fd];
      var severed := CloseOne(CloseOne(Retire(w, fd, if failure then Failed else Closed), fd), p.pairedFd);
      RecordTallied(severed, Close(p.backendIndex), answers);
      FailTallied(Record(severed, Close(p.backendIndex)), p.backendIndex, answers);
    }
  }

  /** What neither calls nor takes an ejection answer changes nothing. */
  lemma SameTally(w: World, v: World, answers: seq<bool>)
    requires Tallied(w, answers) && v.calls == w.calls && v.ejectAnswers == w.ejectAnswers
    ensures Tallied(v, answers)
  {
  }

  lemma {:induction false} FlushTallied(w: World, fd: int, answers: seq<bool>)
    requires Tallied(w, answers)
    ensures Tallied(Flush(w, fd), answers)
    decreases |w.writeAnswers|
  {
    if fd !in w.peers || w.peers[fd].connecting || w.peers[fd].sent >= |w.peers[fd].outbound| || w.writeAnswers == [] {
      SameTally(w, Flush(w, fd), answers);
    } else {
      var p, v := w.peers[fd], w.(writeAnswers := w.writeAnswers[1..]);
      SameTally(w, v, answers);
      match NextWrite(w, |p.outbound| - p.sent)
      case Wrote(n) =>
        WroteTallied(w, v, fd, n, answers);
      case WriteWouldBlock =>
      case WriteInterrupted =>
        FlushTallied(v, fd, answers);
      case WriteError =>
        ClosePairTallied(v, fd, p.backendSide, answers);
    }
  }

  lemma {:induction false} WroteTallied(w: World, v: World, fd: int, n: nat, answers: seq<bool>)
    requires WroteCase(w, v, fd, n) && Tallied(v, answers)
    ensures Tallied(Flush(w, fd), answers)
    decreases |w.writeAnswers|, 0
  {
    var p := v.peers[fd];
    AfterWrote(w, v, fd, n);
    if n == 0 {
      ClosePairTallied(v, fd, p.backendSide, answers);
    } else {
      var s := Sent(v, fd, n);
      SameTally(v, s, answers);
      if p.sent + n == |p.outbound| {
        SameTally(s, ModifyFd(s, p.pairedFd), answers);
      } else {
        FlushTallied(s, fd, answers);
      }
    }
  }

  lemma ForwardTallied(w: World, fd: int, chunk: Chunk, answers: seq<bool>)
    requires Tallied(w, answers) && fd in w.peers && w.peers[fd].pairedFd in w.peers
    ensures Tallied(Forward(w, fd, chunk), answers)
  {
    var p, n := w.peers[fd], |chunk|;
    var call := if p.backendSide then FromBackend(p.backendIndex, n) else FromClient(p.backendIndex, n);
    RecordTallied(w, call, answers);
    SameTally(Record(w, call), Received(w, fd, chunk), answers);
    var f := Flush(Received(w, fd, chunk), p.pairedFd);
    FlushTallied(Received(w, fd, chunk), p.pairedFd, answers);
    SameTally(f, Forward(w, fd, chunk), answers);
  }

  lemma {:induction false} ReadTallied(w: World, fd: int, answers: seq<bool>)
    requires Tallied(w, answers)
    ensures Tallied(ReadAvailable(w, fd), answers)
    decreases |w.readAnswers|
  {
    if fd !in w.peers || w.readAnswers == [] {
    } else {
      var p, v := w.peers[fd], w.(readAnswers := w.readAnswers[1..]);
      match NextRead(w)
      case Data(chunk) =>
        if p.pairedFd !in w.peers {
          ClosePairTallied(Tick(v), fd, false, answers);
        } else {
          var f := Forward(v, fd, chunk);
          ForwardTallied(v, fd, chunk, answers);
          if !Throttled(f, p.pairedFd) { ReadTallied(f, fd, answers); }
        }
      case Eof =>
        ClosePairTallied(v, fd, false, answers);
      case ReadWouldBlock =>
      case ReadInterrupted =>
        ReadTallied(v, fd, answers);
      case ReadError =>
        ClosePairTallied(v, fd, p.backendSide, answers);
    }
  }

  lemma AttachTallied(w: World, client: int, route: Route, answers: seq<bool>)
    requires Tallied(w, answers)
    ensures Tallied(AttachBackend(w, client, route), answers)
  {
    match route
    case NoBackend =>
    case Refused(b) => FailTallied(w.(refused := w.refused + [b]), b, answers);
    case Routed(b, fd) => RecordTallied(Tick(w), Open(b), answers);
  }

  lemma {:induction false} AcceptTallied(w: World, answers: seq<bool>)
    requires Tallied(w, answers)
    ensures Tallied(AcceptClients(w), answers)
    decreases |w.acceptAnswers|
  {
    if w.acceptAnswers == [] {
    } else {
      var v := w.(acceptAnswers := w.acceptAnswers[1..]);
      match NextAccept(w)
      case Accepted(client, route) =>
        AttachTallied(v, client, route, answers);
        AcceptTallied(AttachBackend(v, client, route), answers);
      case AcceptInterrupted =>
        AcceptTallied(v, answers);
      case _ =>
    }
  }

  lemma EstablishedTallied(w: World, fd: int, answers: seq<bool>)
    requires Tallied(w, answers) && fd in w.peers
    ensures Tallied(Established(w, fd), answers)
  {
    var c, b := Connect(w, fd), w.peers[fd].backendIndex;
    var l := Latency(b, c.now - w.peers[fd].connectStartedAt);
    SameTally(w, c, answers);
    RecordTallied(c, l, answers);
    RecordTallied(Record(c, l), Healthy(b), answers);
  }

  lemma FinishTallied(w: World, fd: int, answers: seq<bool>)
    requires Tallied(w, answers)
    ensures Tallied(FinishConnect(w, fd), answers)
  {
    if fd in w.peers {
      var v := if w.connectAnswers == [] then w else w.(connectAnswers := w.connectAnswers[1..]);
      SameTally(w, v, answers);
      if !SocketHealthy(w) {
        ClosePairTallied(v, fd, true, answers);
      } else {
        var f := Flush(Established(v, fd), fd);
        EstablishedTallied(v, fd, answers);
        FlushTallied(Established(v, fd), fd, answers);
        SameTally(f, ModifyFd(f, fd), answers);
      }
    }
  }

  lemma {:induction false} ReapTallied(w: World, expired: seq<(int, bool)>, answers: seq<bool>)
    requires Tallied(w, answers)
    ensures Tallied(ReapAll(w, expired), answers)
    decreases |expired|
  {
    if expired == [] {
    } else {
      var timeout := if expired[0].1 then ConnectTimeout else IdleTimeout;
      RecordTallied(w, timeout, answers);
      ClosePairTallied(Record(w, timeout), expired[0].0, expired[0].1, answers);
      ReapTallied(ReapOne(w, expired[0].0, expired[0].1), expired[1..], answers);
    }
  }

  lemma {:induction false} CloseAllTallied(w: World, order: seq<int>, answers: seq<bool>)
    requires Tallied(w, answers)
    ensures Tallied(CloseAll(w, order), answers)
    decreases |order|
  {
    if order == [] {
    } else {
      ClosePairTallied(w, order[0], false, answers);
      CloseAllTallied(ClosePair(w, order[0], false), order[1..], answers);
    }
  }

  lemma HandleTallied(w: World, ev: Event, order: seq<int>, answers: seq<bool>)
    requires Tallied(w, answers)
    ensures Tallied(HandleEvent(w, ev, order), answers)
  {
    if ev.fd == w.cfg.listenerFd {
      AcceptTallied(w, answers);
    } else if ev.fd == w.cfg.timerFd {
      ReapTallied(Tick(w), ExpiredList(Tick(w), order), answers);
    } else if ev.fd in w.peers {
      if ev.hangup {
        ClosePairTallied(w, ev.fd, w.peers[ev.fd].backendSide, answers);
      } else {
        SocketTallied(w, ev, order, answers);
      }
    }
  }

  lemma SocketTallied(w: World, ev: Event, order: seq<int>, answers: seq<bool>)
    requires Tallied(w, answers) && ev.fd in w.peers && !ev.hangup
    requires ev.fd != w.cfg.listenerFd && ev.fd != w.cfg.timerFd
    ensures Tallied(HandleEvent(w, ev, order), answers)
  {
    var a := if w.peers[ev.fd].connecting && ev.output then FinishConnect(w, ev.fd) else w;
    FinishTallied(w, ev.fd, answers);
    var b := if ev.fd in a.peers && ev.input then ReadAvailable(a, ev.fd) else a;
    ReadTallied(a, ev.fd, answers);
    FlushTallied(b, ev.fd, answers);
  }

  lemma {:induction false} RunTallied(run: seq<Loop>, i: nat)
    requires IsRun(run) && i < |run|
    ensures Tallied(run[i].w, run[0].w.ejectAnswers)
  {
    if i == 0 {
    } else {
      RunTallied(run, i - 1);
      var a, b := run[i - 1], run[i];
      assert Next(a, b);
      if a.pending != [] {
        var order :| Visits(order, a.w.peers.Keys) && b.w == HandleEvent(a.w, a.pending[0], order);
        HandleTallied(a.w, a.pending[0], order, run[0].w.ejectAnswers);
      }
    }
  }

  /** Over every run: the i-th failure that a worker records is followed at once by the
      ejection of its backend exactly if the i-th answer of the run says that the failure
      counter has reached the threshold, and each failure takes one answer. */
  lemma EjectionsExact(run: seq<Loop>, i: nat)
    requires IsRun(run) && i < |run|
    ensures var answers, log := run[0].w.ejectAnswers, run[i].w.calls;
            && (forall p | 0 <= p < |log| && log[p].Failure? ::
                  EjectedNext(log, p) <==> Failures(log[..p]) < |answers| && answers[Failures(log[..p])])
            && run[i].w.ejectAnswers == Left(answers, Failures(log))
  {
    RunTallied(run, i);
    var answers, log := run[0].w.ejectAnswers, run[i].w.calls;
    forall p | 0 <= p < |log| && log[p].Failure?
      ensures EjectedNext(log, p) <==> Failures(log[..p]) < |answers| && answers[Failures(log[..p])] {
      assert EjectedNext(log, p) <==> Convicted(log, answers, p);
    }
  }

  /** And to the end of the shutdown that follows a run. */
  lemma ShutdownEjections(run: seq<Loop>, order: seq<int>)
    requires IsRun(run)
    ensures var r, answers := Shutdown(run[|run| - 1].w, order), run[0].w.ejectAnswers;
            && (forall p | 0 <= p < |r.calls| && r.calls[p].Failure? ::
                  EjectedNext(r.calls, p) <==> Convicted(r.calls, answers, p))
            && r.ejectAnswers == Left(answers, Failures(r.calls))
  {
    RunTallied(run, |run| - 1);
    CloseAllTallied(run[|run| - 1].w, order, run[0].w.ejectAnswers);
  }
}
