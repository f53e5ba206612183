/** The three selection policies as functions of the backend states, the active counts,
    the rotation counter and the random draws. */
module Selection {
  import opened Modular
  import opened Outcomes

  datatype BackendState = Up | Down | Draining

  /** The rotation counter is a 64-bit unsigned integer. */
  const WORD: nat := 0x1_0000_0000_0000_0000

  predicate AnyUp(states: seq<BackendState>) {
    exists i :: 0 <= i < |states| && states[i].Up?
  }

  predicate AllUp(states: seq<BackendState>) {
    forall i | 0 <= i < |states| :: states[i].Up?
  }

  // ----- Round robin -----

  /** The index looked at `offset` places after `start`, with the sum wrapping around. */
  function Slot(start: nat, offset: nat, n: nat): (i: nat)
    requires n > 0
    ensures i < n
  {
    (start + offset) % WORD % n
  }

  function Scan(states: seq<BackendState>, start: nat, offset: nat): Option<nat>
    decreases |states| - offset
  {
    if offset >= |states| then None
    else if states[Slot(start, offset, |states|)].Up? then Some(Slot(start, offset, |states|))
    else Scan(states, start, offset + 1)
  }

  function RoundRobin(states: seq<BackendState>, start: nat): Option<nat> {
    Scan(states, start, 0)
  }

  /** The scan returns the first slot that is Up, or nothing if no slot it visits is. */
  lemma {:induction false} ScanFirst(states: seq<BackendState>, start: nat, offset: nat)
    requires offset <= |states|
    ensures match Scan(states, start, offset)
            case None => forall o | offset <= o < |states| :: !states[Slot(start, o, |states|)].Up?
            case Some(i) => exists o :: offset <= o < |states| && i == Slot(start, o, |states|) && states[i].Up? &&
                                        forall p | offset <= p < o :: !states[Slot(start, p, |states|)].Up?
    decreases |states| - offset
  {
    if offset >= |states| {
    } else {
      var i := Slot(start, offset, |states|);
      if !states[i].Up? {
        ScanFirst(states, start, offset + 1);
      }
    }
  }

  lemma SlotWithoutWrap(start: nat, offset: nat, n: nat)
    requires n > 0 && start + offset < WORD
    ensures Slot(start, offset, n) == (start + offset) % n
  {
  }

  /** Soundness: whatever the counter, a returned backend is Up. */
  lemma RoundRobinSound(states: seq<BackendState>, start: nat)
    ensures RoundRobin(states, start).Some? ==>
              RoundRobin(states, start).value < |states| && states[RoundRobin(states, start).value].Up?
  {
    ScanFirst(states, start, 0);
  }

  /** Completeness before the counter wraps: a backend is returned if one is Up. */
  lemma RoundRobinComplete(states: seq<BackendState>, start: nat)
    requires start + |states| <= WORD
    ensures RoundRobin(states, start).Some? <==> AnyUp(states)
  {
    ScanFirst(states, start, 0);
    RoundRobinSound(states, start);
    if AnyUp(states) {
      var i :| 0 <= i < |states| && states[i].Up?;
      var o := HitsResidue(start, |states|, i);
      SlotWithoutWrap(start, o, |states|);
    }
  }

  predicate Visited(start: nat, n: nat, i: nat)
    requires n > 0
  {
    exists o: nat :: o < n && Slot(start, o, n) == i
  }

  lemma WrapDivides(n: nat, start: nat, i: nat)
    requires i < n && WORD % n == 0
    ensures Visited(start, n, i)
  {
    var o := HitsResidue(start, n, i);
    assert Slot(start, o, n) == i by {
      var x := start + o;
      var k := WORD / n;
      assert WORD == k * n;
      assert x == (x / WORD) * WORD + x % WORD;
      assert (x / WORD) * WORD == ((x / WORD) * k) * n by { Reassociate(x / WORD, k, n); }
      ModShift((x / WORD) * k, n, x % WORD);
    }
  }

  lemma Reassociate(a: nat, k: nat, n: nat)
    ensures a * (k * n) == (a * k) * n
  {
  }

  /** When the scan crosses the wrap and n does not divide 2^64, this slot is skipped. */
  function Skipped(start: nat, n: nat): nat
    requires 0 < n && start < WORD < start + n
  {
    var d, b := WORD % n, start + n - WORD;
    if d + b < n then d + b - 1 else n - 1
  }

  /** The residue `back` places before the wrap. */
  lemma ResidueBefore(n: nat, back: nat)
    requires 1 <= back <= n <= WORD
    ensures (WORD - back) % n == if back <= WORD % n then WORD % n - back else n + WORD % n - back
  {
    var q, d := WORD / n, WORD % n;
    assert WORD == q * n + d;
    if back <= d {
      DivModUnique(WORD - back, n, q, d - back);
    } else {
      PreviousMultiple(q, n);
      DivModUnique(WORD - back, n, q - 1, n + d - back);
    }
  }

  lemma PreviousMultiple(q: int, n: nat)
    ensures (q - 1) * n == q * n - n
  {
  }

  lemma BeforeWrapSkips(start: nat, n: nat, o: nat)
    requires 0 < n <= WORD && start + o < WORD < start + n && WORD % n != 0
    ensures Slot(start, o, n) != Skipped(start, n)
  {
    var back := WORD - (start + o);
    ResidueBefore(n, back);
    SlotWithoutWrap(start, o, n);
    assert start + o == WORD - back;
  }

  lemma AfterWrapSkips(start: nat, n: nat, o: nat)
    requires 0 < n <= WORD && start < WORD <= start + o < start + n && WORD % n != 0
    ensures Slot(start, o, n) != Skipped(start, n)
  {
    var r := start + o - WORD;
    DivModUnique(start + o, WORD, 1, r);
    ModSmall(r, n);
  }

  lemma WrapSkips(start: nat, n: nat, o: nat)
    requires 0 < n <= WORD && start < WORD < start + n && WORD % n != 0 && o < n
    ensures Skipped(start, n) < n && Slot(start, o, n) != Skipped(start, n)
  {
    if start + o < WORD {
      BeforeWrapSkips(start, n, o);
    } else {
      AfterWrapSkips(start, n, o);
    }
  }

  /** Exactly when round robin is complete: for a counter value, every set of states with
      a backend Up gets one if and only if the scan does not cross the wrap or the number
      of backends divides 2^64. */
  lemma RoundRobinCompleteExactly(start: nat, n: nat)
    requires 0 < n <= WORD && start < WORD
    ensures (forall states: seq<BackendState> | |states| == n && AnyUp(states) :: RoundRobin(states, start).Some?)
            <==> (start + n <= WORD || WORD % n == 0)
  {
    if start + n <= WORD {
      forall states: seq<BackendState> | |states| == n && AnyUp(states) ensures RoundRobin(states, start).Some? {
        RoundRobinComplete(states, start);
      }
    } else if WORD % n == 0 {
      forall states: seq<BackendState> | |states| == n && AnyUp(states) ensures RoundRobin(states, start).Some? {
        ScanFirst(states, start, 0);
        var i :| 0 <= i < |states| && states[i].Up?;
        WrapDivides(n, start, i);
      }
    } else {
      WrapSkips(start, n, 0);
      var x := Skipped(start, n);
      var states := seq(n, j => if j == x then Up else Down);
      assert states[x].Up?;
      ScanFirst(states, start, 0);
      forall o: nat | o < n ensures !states[Slot(start, o, n)].Up? {
        WrapSkips(start, n, o);
      }
    }
  }

  // ----- Least connections -----

  function LeastFrom(states: seq<BackendState>, active: seq<nat>, i: nat, best: Option<nat>): Option<nat>
    requires |active| == |states| && (best.Some? ==> best.value < |active|)
    decreases |states| - i
  {
    if i >= |states| then best
    else if !states[i].Up? then LeastFrom(states, active, i + 1, best)
    else if best.None? || active[i] < active[best.value] then LeastFrom(states, active, i + 1, Some(i))
    else LeastFrom(states, active, i + 1, best)
  }

  function LeastConnections(states: seq<BackendState>, active: seq<nat>): Option<nat>
    requires |active| == |states|
  {
    LeastFrom(states, active, 0, None)
  }

  /** The first of the backends below `n` that are Up with the fewest active connections. */
  predicate FirstLeast(states: seq<BackendState>, active: seq<nat>, n: nat, r: Option<nat>)
    requires |active| == |states| && n <= |states|
  {
    match r
    case None => forall j | 0 <= j < n :: !states[j].Up?
    case Some(i) =>
      && i < n && states[i].Up?
      && (forall j | 0 <= j < n && states[j].Up? :: active[i] <= active[j])
      && (forall j | 0 <= j < i && states[j].Up? :: active[i] < active[j])
  }

  lemma {:induction false} LeastFromIsFirst(states: seq<BackendState>, active: seq<nat>, i: nat, best: Option<nat>)
    requires |active| == |states| && i <= |states| && FirstLeast(states, active, i, best)
    ensures FirstLeast(states, active, |states|, LeastFrom(states, active, i, best))
    decreases |states| - i
  {
    if i >= |states| {
    } else {
      if !states[i].Up? {
        LeastFromIsFirst(states, active, i + 1, best);
      } else if best.None? || active[i] < active[best.value] {
        LeastFromIsFirst(states, active, i + 1, Some(i));
      } else {
        LeastFromIsFirst(states, active, i + 1, best);
      }
    }
  }

  /** Least connections returns the first backend of minimum active count among those
      Up; it returns one exactly when one is Up. */
  lemma LeastIsFirst(states: seq<BackendState>, active: seq<nat>)
    requires |active| == |states|
    ensures FirstLeast(states, active, |states|, LeastConnections(states, active))
    ensures LeastConnections(states, active).Some? <==> AnyUp(states)
  {
    LeastFromIsFirst(states, active, 0, None);
  }

  function Max(a: int, b: int): int {
    if a > b then a else b
  }

  /** With every backend Up, opening a connection where least connections says never
      raises the difference between two backends above the larger of what it was and 1. */
  lemma OpenKeepsSpread(states: seq<BackendState>, active: seq<nat>, spread: nat, i: nat)
    requires |active| == |states| && AllUp(states) && LeastConnections(states, active) == Some(i)
    requires forall a, b | 0 <= a < |active| && 0 <= b < |active| :: active[a] - active[b] <= spread
    ensures i < |active|
    ensures var grown := active[i := active[i] + 1];
            forall a, b | 0 <= a < |grown| && 0 <= b < |grown| :: grown[a] - grown[b] <= Max(spread, 1)
  {
    LeastIsFirst(states, active);
  }

  function AllBackendsUp(n: nat): seq<BackendState> {
    seq(n, i => Up)
  }

  /** Active counts after `m` connections have been spread evenly over `n` backends. */
  function Even(n: nat, m: nat): (level: seq<nat>)
    requires n > 0
    ensures |level| == n
  {
    seq(n, i => m / n + (if i < m % n then 1 else 0))
  }

  /** The active counts after `m` times select-then-open, starting from nothing. */
  function AfterOpens(n: nat, m: nat): (active: seq<nat>)
    requires n > 0
    ensures |active| == n
  {
    if m == 0 then seq(n, i => 0)
    else
      var active := AfterOpens(n, m - 1);
      match LeastConnections(AllBackendsUp(n), active)
      case None => active
      case Some(i) => if i < n then active[i := active[i] + 1] else active
  }

  lemma EvenNext(n: nat, m: nat)
    requires n > 0
    ensures LeastConnections(AllBackendsUp(n), Even(n, m)) == Some(m % n)
    ensures Even(n, m)[m % n := Even(n, m)[m % n] + 1] == Even(n, m + 1)
  {
    LeastIsFirst(AllBackendsUp(n), Even(n, m));
    assert FirstLeast(AllBackendsUp(n), Even(n, m), n, Some(m % n));
    DivModStep(m, n);
  }

  lemma {:induction false} OpensAreEven(n: nat, m: nat)
    requires n > 0
    ensures AfterOpens(n, m) == Even(n, m)
  {
    if m == 0 {
      assert Even(n, 0) == AfterOpens(n, 0);
    } else {
      OpensAreEven(n, m - 1);
      EvenNext(n, m - 1);
    }
  }

  lemma RoundRobinUp(n: nat, m: nat)
    requires n > 0 && m < WORD
    ensures RoundRobin(AllBackendsUp(n), m) == Some(m % n)
  {
    SlotWithoutWrap(m, 0, n);
  }

  lemma LeastOfOpens(n: nat, m: nat, active: seq<nat>)
    requires n > 0 && active == AfterOpens(n, m)
    ensures active == Even(n, m) && LeastConnections(AllBackendsUp(n), active) == Some(m % n)
  {
    OpensAreEven(n, m);
    EvenNext(n, m);
  }

  /** Starting from nothing with every backend Up and no closes, the m-th connection under
      least connections goes to backend m mod n: it refines round robin. */
  lemma LeastRotates(n: nat, m: nat)
    requires n > 0
    ensures AfterOpens(n, m) == Even(n, m)
    ensures LeastConnections(AllBackendsUp(n), AfterOpens(n, m)) == Some(m % n)
    ensures m < WORD ==> LeastConnections(AllBackendsUp(n), AfterOpens(n, m)) == RoundRobin(AllBackendsUp(n), m)
  {
    LeastOfOpens(n, m, AfterOpens(n, m));
    if m < WORD {
      RoundRobinUp(n, m);
    }
  }

  // ----- Power of two choices -----

  /** The sampling loop: pairs of draws until one of them is Up. */
  function Sample(states: seq<BackendState>, active: seq<nat>, draws: seq<(nat, nat)>): Option<nat>
    requires |active| == |states| && forall d | d in draws :: d.0 < |states| && d.1 < |states|
  {
    if draws == [] then None
    else
      var (first, second) := draws[0];
      assert draws[0] in draws;
      if !states[first].Up? && !states[second].Up? then Sample(states, active, draws[1..])
      else if !states[second].Up? then Some(first)
      else if !states[first].Up? then Some(second)
      else if active[first] <= active[second] then Some(first) else Some(second)
  }

  function PowerOfTwo(states: seq<BackendState>, active: seq<nat>, draws: seq<(nat, nat)>): Option<nat>
    requires |active| == |states| && forall d | d in draws :: d.0 < |states| && d.1 < |states|
  {
    var sampled := if |states| > 1 then Sample(states, active, draws) else None;
    if sampled.Some? then sampled else LeastConnections(states, active)
  }

  /** What sampling returns is Up, was drawn, and has no more connections than the other
      draw if that is Up as well. */
  lemma {:induction false} SampleSound(states: seq<BackendState>, active: seq<nat>, draws: seq<(nat, nat)>)
    requires |active| == |states| && forall d | d in draws :: d.0 < |states| && d.1 < |states|
    ensures match Sample(states, active, draws)
            case None => forall d | d in draws :: !states[d.0].Up? && !states[d.1].Up?
            case Some(i) =>
              && i < |states| && states[i].Up?
              && exists d :: d in draws && (i == d.0 || i == d.1)
                             && (states[d.0].Up? ==> active[i] <= active[d.0])
                             && (states[d.1].Up? ==> active[i] <= active[d.1])
  {
    if draws == [] {
    } else {
      assert draws[0] in draws;
      if !states[draws[0].0].Up? && !states[draws[0].1].Up? {
        SampleSound(states, active, draws[1..]);
        assert forall d | d in draws :: d == draws[0] || d in draws[1..];
      }
    }
  }

  predicate WithinRange(draws: seq<(nat, nat)>, n: nat) {
    forall d | d in draws :: d.0 < n && d.1 < n
  }

  /** A drawn pair of which at least one is Up decides for `r`: the only one that is Up, or
      the less busy one, the first of them if they are equally busy. */
  predicate Decides(states: seq<BackendState>, active: seq<nat>, d: (nat, nat), r: nat)
    requires |active| == |states| && d.0 < |states| && d.1 < |states|
  {
    || (r == d.0 && states[d.0].Up? && (states[d.1].Up? ==> active[d.0] <= active[d.1]))
    || (r == d.1 && states[d.1].Up? && (states[d.0].Up? ==> active[d.1] < active[d.0]))
  }

  predicate NeitherUp(states: seq<BackendState>, d: (nat, nat))
    requires d.0 < |states| && d.1 < |states|
  {
    !states[d.0].Up? && !states[d.1].Up?
  }

  /** The pair drawn at place `i` is the first that decides, and it decides for `r`. */
  predicate FirstDecides(states: seq<BackendState>, active: seq<nat>, draws: seq<(nat, nat)>, i: nat, r: nat)
    requires |active| == |states| && WithinRange(draws, |states|)
  {
    i < |draws| && Decides(states, active, draws[i], r) && forall j | 0 <= j < i :: NeitherUp(states, draws[j])
  }

  lemma {:induction false} SampleExactly(states: seq<BackendState>, active: seq<nat>, draws: seq<(nat, nat)>, r: nat)
    requires |active| == |states| && WithinRange(draws, |states|)
    ensures Sample(states, active, draws) == Some(r) <==>
            exists i: nat :: FirstDecides(states, active, draws, i, r)
  {
    if draws == [] {
    } else {
      assert draws[0] in draws;
      if NeitherUp(states, draws[0]) {
        SampleExactly(states, active, draws[1..], r);
        FirstIsLater(states, active, draws, r);
      } else {
        assert Decides(states, active, draws[0], r) <==> FirstDecides(states, active, draws, 0, r);
      }
    }
  }

  lemma LaterDecides(states: seq<BackendState>, active: seq<nat>, draws: seq<(nat, nat)>, i: nat, r: nat)
    requires |active| == |states| && WithinRange(draws, |states|) && draws != []
    requires draws[0] in draws && NeitherUp(states, draws[0])
    ensures FirstDecides(states, active, draws, i + 1, r) <==> FirstDecides(states, active, draws[1..], i, r)
  {
    if i < |draws[1..]| && forall j | 0 <= j < i :: NeitherUp(states, draws[1..][j]) {
      forall j | 0 <= j < i + 1 ensures NeitherUp(states, draws[j]) {
        if j > 0 { assert draws[j] == draws[1..][j - 1]; }
      }
    }
  }

  lemma FirstIsLater(states: seq<BackendState>, active: seq<nat>, draws: seq<(nat, nat)>, r: nat)
    requires |active| == |states| && WithinRange(draws, |states|) && draws != []
    requires draws[0] in draws && NeitherUp(states, draws[0])
    ensures (exists i: nat :: FirstDecides(states, active, draws, i, r)) <==>
            exists i: nat :: FirstDecides(states, active, draws[1..], i, r)
  {
    if exists i: nat :: FirstDecides(states, active, draws, i, r) {
      var i: nat :| FirstDecides(states, active, draws, i, r);
      LaterDecides(states, active, draws, i - 1, r);
    }
    if exists i: nat :: FirstDecides(states, active, draws[1..], i, r) {
      var i: nat :| FirstDecides(states, active, draws[1..], i, r);
      LaterDecides(states, active, draws, i, r);
    }
  }

  /** Exactly which backend power of two choices returns: with at least two backends the
      one for which the first drawn pair with a routable member decides; without such a
      pair, or with a single backend, the one that least connections returns. */
  lemma PowerOfTwoExactly(states: seq<BackendState>, active: seq<nat>, draws: seq<(nat, nat)>, r: nat)
    requires |active| == |states| && WithinRange(draws, |states|)
    ensures PowerOfTwo(states, active, draws) == Some(r) <==>
            if |states| > 1 && exists d :: d in draws && !NeitherUp(states, d)
            then exists i: nat :: FirstDecides(states, active, draws, i, r)
            else FirstLeast(states, active, |states|, Some(r))
  {
    SampleSound(states, active, draws);
    SampleExactly(states, active, draws, r);
    LeastIsFirst(states, active);
  }

  /** Whatever is drawn, power of two choices returns a backend exactly when one is Up,
      and the one it returns is Up: the fallback scan makes up for unlucky draws. */
  lemma PowerOfTwoExact(states: seq<BackendState>, active: seq<nat>, draws: seq<(nat, nat)>)
    requires |active| == |states| && forall d | d in draws :: d.0 < |states| && d.1 < |states|
    ensures var r := PowerOfTwo(states, active, draws);
            (r.Some? <==> AnyUp(states)) && (r.Some? ==> r.value < |states| && states[r.value].Up?)
  {
    SampleSound(states, active, draws);
    LeastIsFirst(states, active);
  }

  // ----- The documented rule for power of two choices -----

  /** The documented rule: two routable backends were drawn together -- possibly the same
      one twice -- and the one returned is the less busy of them. */
  ghost predicate ComparedTwo(states: seq<BackendState>, active: seq<nat>, draws: seq<(nat, nat)>, r: nat)
    requires |active| == |states| && WithinRange(draws, |states|) && r < |states|
  {
    exists d :: d in draws && BothUp(states, d) && (r == d.0 || r == d.1)
                && active[r] <= active[d.0] && active[r] <= active[d.1]
  }

  predicate BothUp(states: seq<BackendState>, d: (nat, nat))
    requires d.0 < |states| && d.1 < |states|
  {
    states[d.0].Up? && states[d.1].Up?
  }

  /** Whatever is returned was chosen by the documented rule, for these counts and draws. */
  ghost predicate Obeys(states: seq<BackendState>, active: seq<nat>, draws: seq<(nat, nat)>)
    requires |active| == |states| && WithinRange(draws, |states|)
  {
    var r := PowerOfTwo(states, active, draws);
    r.Some? ==> r.value < |states| && ComparedTwo(states, active, draws, r.value)
  }

  function Repeated(d: (nat, nat), n: nat): (draws: seq<(nat, nat)>)
    ensures |draws| == n && forall x | x in draws :: x == d
  {
    seq(n, k => d)
  }

  /** The rule fails: if every draw pairs a routable backend with one that is not, the
      routable one is returned without having been compared to any other, however busy
      it is. */
  lemma UncomparedPick(states: seq<BackendState>, active: seq<nat>, i: nat, j: nat)
    requires |active| == |states| && i < |states| && j < |states| && states[i].Up? && !states[j].Up?
    ensures var draws := Repeated((i, j), 2 * |states|);
            && PowerOfTwo(states, active, draws) == Some(i)
            && !ComparedTwo(states, active, draws, i)
  {
    var draws := Repeated((i, j), 2 * |states|);
    assert draws[0] == (i, j);
  }

  lemma AllUpObeys(states: seq<BackendState>, active: seq<nat>, draws: seq<(nat, nat)>)
    requires |active| == |states| && |draws| == 2 * |states| && WithinRange(draws, |states|) && AllUp(states)
    ensures Obeys(states, active, draws)
  {
    LeastIsFirst(states, active);
    if states != [] {
      assert draws[0] in draws && BothUp(states, draws[0]);
    }
  }

  /** Exactly when the documented rule holds, whatever the counts and whatever is drawn:
      if every backend is routable, or if none is. */
  lemma ComparesTwoExactly(states: seq<BackendState>)
    ensures (forall active: seq<nat>, draws: seq<(nat, nat)> |
               |active| == |states| && |draws| == 2 * |states| && WithinRange(draws, |states|) ::
               Obeys(states, active, draws))
            <==> AllUp(states) || !AnyUp(states)
  {
    forall active: seq<nat>, draws: seq<(nat, nat)> |
      && |active| == |states| && |draws| == 2 * |states| && WithinRange(draws, |states|)
      && (AllUp(states) || !AnyUp(states))
      ensures Obeys(states, active, draws) {
      if AllUp(states) {
        AllUpObeys(states, active, draws);
      } else {
        PowerOfTwoExact(states, active, draws);
      }
    }
    if AnyUp(states) && !AllUp(states) {
      var i :| 0 <= i < |states| && states[i].Up?;
      var j :| 0 <= j < |states| && !states[j].Up?;
      var active := seq(|states|, k => 0);
      UncomparedPick(states, active, i, j);
      assert !Obeys(states, active, Repeated((i, j), 2 * |states|));
    }
  }
}
