/** How round robin shares consecutive selections out among the backends.

    Every selection takes the next value of one shared counter, so any n consecutive
    selections use n consecutive values; `Tickets` says so of any interleaving of threads. */
module Rotation {
  import opened Modular
  import opened Outcomes
  import opened Selection

  /** How far after `start` backend `i` is looked at. */
  function Distance(start: nat, i: nat, n: nat): (d: nat)
    requires i < n
    ensures d < n
  {
    if i >= start % n then i - start % n else i + n - start % n
  }

  /** The backend `e` places before `i`, cyclically. */
  function Before(i: nat, e: nat, n: nat): (j: nat)
    requires i < n && e < n
    ensures j < n
  {
    if e <= i then i - e else i + n - e
  }

  /** The length of the cyclic run of backends that are not Up directly before `i`,
      given that the first `k` before it are not. */
  function Gap(states: seq<BackendState>, i: nat, k: nat): (g: nat)
    requires i < |states| && k < |states|
    ensures k <= g < |states|
    decreases |states| - k
  {
    if k == |states| - 1 || states[Before(i, k + 1, |states|)].Up? then k else Gap(states, i, k + 1)
  }

  lemma {:induction false} GapIsRun(states: seq<BackendState>, i: nat, k: nat)
    requires i < |states| && k < |states|
    requires forall e | 1 <= e <= k :: !states[Before(i, e, |states|)].Up?
    ensures var n, g := |states|, Gap(states, i, k);
            && (forall e | 1 <= e <= g :: !states[Before(i, e, n)].Up?)
            && (g < n - 1 ==> states[Before(i, g + 1, n)].Up?)
    decreases |states| - k
  {
    if k < |states| - 1 && !states[Before(i, k + 1, |states|)].Up? {
      GapIsRun(states, i, k + 1);
    }
  }

  /** The slot `e` places before the one that shows backend `i`. */
  lemma SlotBefore(start: nat, d: nat, e: nat, i: nat, n: nat)
    requires i < n && e <= d < n && (start + d) % n == i
    ensures (start + d - e) % n == Before(i, e, n)
  {
    var q := (start + d) / n;
    assert start + d == q * n + i;
    if e <= i {
      DivModUnique(start + d - e, n, q, i - e);
    } else {
      PreviousMultiple(q, n);
      assert q >= 1 by { if q <= 0 { MulMonotone(q, 0, n); } }
      DivModUnique(start + d - e, n, q - 1, i + n - e);
    }
  }

  lemma DistanceHits(start: nat, i: nat, n: nat)
    requires i < n
    ensures (start + Distance(start, i, n)) % n == i
  {
    var q, r, d := start / n, start % n, Distance(start, i, n);
    if i >= r {
      DivModUnique(start + d, n, q, i);
    } else {
      NextMultiple(q, n);
      DivModUnique(start + d, n, q + 1, i);
    }
  }

  /** The first slot of a scan that is Up, given that slot `x` is. */
  lemma {:induction false} FirstSlotFrom(states: seq<BackendState>, start: nat, offset: nat, x: nat) returns (o: nat)
    requires offset <= x < |states| && states[Slot(start, x, |states|)].Up?
    ensures offset <= o <= x && Scan(states, start, offset) == Some(Slot(start, o, |states|))
    ensures states[Slot(start, o, |states|)].Up?
    ensures forall p: nat | offset <= p < o :: !states[Slot(start, p, |states|)].Up?
    decreases |states| - offset
  {
    if states[Slot(start, offset, |states|)].Up? {
      o := offset;
    } else {
      o := FirstSlotFrom(states, start, offset + 1, x);
    }
  }

  /** A counter value selects backend `i` exactly when its slot is reached through
      backends that are not Up. */
  lemma SelectsIff(states: seq<BackendState>, start: nat, i: nat)
    requires i < |states| && states[i].Up? && start + |states| <= WORD
    ensures RoundRobin(states, start) == Some(i) <==> Distance(start, i, |states|) <= Gap(states, i, 0)
  {
    var n, d, g := |states|, Distance(start, i, |states|), Gap(states, i, 0);
    DistanceHits(start, i, n);
    SlotWithoutWrap(start, d, n);
    var o := FirstSlotFrom(states, start, 0, d);
    SlotWithoutWrap(start, o, n);
    if o < d {
      SlotBefore(start, d, d - o, (start + d) % n, n);
      assert start + d - (d - o) == start + o;
      SlotBefore(start, d, d - o, i, n);
      GapIsRun(states, i, 0);
    } else {
      GapReaches(states, start, i, d);
    }
  }

  /** If no slot before backend `i` is Up, the gap reaches back to the start. */
  lemma GapReaches(states: seq<BackendState>, start: nat, i: nat, d: nat)
    requires i < |states| && d < |states| && (start + d) % |states| == i && start + |states| <= WORD
    requires forall p: nat | p < d :: !states[Slot(start, p, |states|)].Up?
    ensures d <= Gap(states, i, 0)
  {
    var n, g := |states|, Gap(states, i, 0);
    GapIsRun(states, i, 0);
    if g < d {
      SlotBefore(start, d, g + 1, i, n);
      SlotWithoutWrap(start, d - (g + 1), n);
      assert false;
    }
  }

  /** How many of the selections with counter values s, ..., s+m-1 pick backend `i`. */
  function Picks(states: seq<BackendState>, i: nat, s: nat, m: nat): nat {
    if m == 0 then 0
    else Picks(states, i, s, m - 1) + (if RoundRobin(states, s + m - 1) == Some(i) then 1 else 0)
  }

  /** The same, counting slots. */
  function Near(n: nat, i: nat, g: nat, s: nat, m: nat): nat
    requires i < n
  {
    if m == 0 then 0
    else Near(n, i, g, s, m - 1) + (if Distance(s + m - 1, i, n) <= g then 1 else 0)
  }

  lemma {:induction false} PicksAreNear(states: seq<BackendState>, i: nat, s: nat, m: nat)
    requires i < |states| && states[i].Up? && (m > 0 ==> s + m - 1 + |states| <= WORD)
    ensures Picks(states, i, s, m) == Near(|states|, i, Gap(states, i, 0), s, m)
  {
    if m == 0 {
    } else {
      PicksAreNear(states, i, s, m - 1);
      SelectsIff(states, s + m - 1, i);
    }
  }

  lemma {:induction false} NearSplit(n: nat, i: nat, g: nat, s: nat, a: nat, b: nat)
    requires i < n
    ensures Near(n, i, g, s, a + b) == Near(n, i, g, s, a) + Near(n, i, g, s + a, b)
    decreases b
  {
    if b == 0 {
    } else {
      NearSplit(n, i, g, s, a, b - 1);
      assert s + a + b - 1 == s + (a + b) - 1;
    }
  }

  /** A window of n slots may slide. */
  lemma NearSlide(n: nat, i: nat, g: nat, s: nat)
    requires i < n
    ensures Near(n, i, g, s, n) == Near(n, i, g, s + 1, n)
  {
    NearSplit(n, i, g, s, 1, n - 1);
    NearSplit(n, i, g, s + 1, n - 1, 1);
    assert s + n == 1 * n + s;
    ModShift(1, n, s);
    assert Near(n, i, g, s, 1) == Near(n, i, g, s, 0) + (if Distance(s, i, n) <= g then 1 else 0);
    assert Near(n, i, g, s + n, 1) == Near(n, i, g, s + n, 0) + (if Distance(s + n, i, n) <= g then 1 else 0);
    assert s + 1 + (n - 1) == s + n;
  }

  lemma {:induction false} NearAnywhere(n: nat, i: nat, g: nat, s: nat)
    requires i < n
    ensures Near(n, i, g, s, n) == Near(n, i, g, 0, n)
  {
    if s == 0 {
    } else {
      NearAnywhere(n, i, g, s - 1);
      NearSlide(n, i, g, s - 1);
    }
  }

  /** In the window that ends at backend `i`, the near slots are the last ones. */
  lemma {:induction false} NearAnchored(n: nat, i: nat, g: nat, m: nat)
    requires i < n && g < n && m <= n
    ensures Near(n, i, g, i + 1, m) == if m <= n - 1 - g then 0 else m - (n - 1 - g)
  {
    if m == 0 {
    } else {
      NearAnchored(n, i, g, m - 1);
      var x := i + 1 + m - 1;
      if x < n {
        ModSmall(x, n);
      } else {
        DivModUnique(x, n, 1, x - n);
      }
      assert Distance(x, i, n) == n - m;
    }
  }

  lemma NearTotal(n: nat, i: nat, g: nat, s: nat)
    requires i < n && g < n
    ensures Near(n, i, g, s, n) == g + 1
  {
    NearAnywhere(n, i, g, s);
    NearAnywhere(n, i, g, i + 1);
    NearAnchored(n, i, g, n);
  }

  /** Exact shares.  With fixed states, any n consecutive selections over n backends pick
      a backend that is Up once, and once more for every backend of the cyclic run that is
      not Up directly before it -- as long as the counter does not wrap meanwhile. */
  lemma ExactShares(states: seq<BackendState>, i: nat, s: nat)
    requires i < |states| && states[i].Up? && s + 2 * |states| - 1 <= WORD
    ensures Picks(states, i, s, |states|) == 1 + Gap(states, i, 0)
  {
    PicksAreNear(states, i, s, |states|);
    NearTotal(|states|, i, Gap(states, i, 0), s);
  }

  lemma {:induction false} NearMonotone(n: nat, i: nat, g: nat, s: nat, a: nat, b: nat)
    requires i < n && a <= b
    ensures Near(n, i, g, s, a) <= Near(n, i, g, s, b)
    decreases b
  {
    if a >= b {
    } else {
      NearMonotone(n, i, g, s, a, b - 1);
    }
  }

  /** Over any number of slots, each backend's own slot comes up m/n or m/n + 1 times. */
  lemma {:induction false} NearBalanced(n: nat, i: nat, s: nat, m: nat)
    requires i < n
    ensures m / n <= Near(n, i, 0, s, m) <= m / n + 1
    decreases m
  {
    if m < n {
      NearTotal(n, i, 0, s);
      NearMonotone(n, i, 0, s, m, n);
      DivModUnique(m, n, 0, m);
    } else {
      NearSplit(n, i, 0, s, n, m - n);
      NearTotal(n, i, 0, s);
      NearBalanced(n, i, s + n, m - n);
      DivDrop(m, n);
    }
  }

  lemma NoGap(states: seq<BackendState>, i: nat)
    requires i < |states| && AllUp(states)
    ensures Gap(states, i, 0) == 0
  {
  }

  /** With every backend Up, the shares of two backends over any window of selections
      differ by at most one. */
  lemma Balanced(states: seq<BackendState>, i: nat, j: nat, s: nat, m: nat)
    requires i < |states| && j < |states| && AllUp(states) && s + m + |states| <= WORD
    ensures Picks(states, i, s, m) - Picks(states, j, s, m) <= 1
  {
    NoGap(states, i);
    NoGap(states, j);
    PicksAreNear(states, i, s, m);
    PicksAreNear(states, j, s, m);
    NearBalanced(|states|, i, s, m);
    NearBalanced(|states|, j, s, m);
  }
}
