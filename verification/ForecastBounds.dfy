/** How long the greedy schedule can be: a bound in the style of Graham's list-scheduling theorem. */
module ForecastBounds {
  import opened ForecastGraph
  import opened ForecastSchedule

  function LaneDays(s: Slot): nat
    requires s.start <= s.end
  {
    s.end - s.start + 1
  }

  /** Lane-days the log holds before day `x`. */
  function BusyBefore(log: Log, x: nat): nat {
    if log == [] then 0
    else
      var s := log[|log| - 1];
      BusyBefore(log[..|log| - 1], x) + Max(0, Min(s.end + 1, x) - s.start)
  }

  function CountCovering(log: Log, day: nat): nat {
    if log == [] then 0
    else CountCovering(log[..|log| - 1], day) + if Covers(log[|log| - 1], day) then 1 else 0
  }

  function TotalLaneDays(log: Log): nat
    requires forall k | 0 <= k < |log| :: log[k].start <= log[k].end
  {
    if log == [] then 0 else TotalLaneDays(log[..|log| - 1]) + LaneDays(log[|log| - 1])
  }

  lemma {:induction false} BusyAdvances(log: Log, x: nat)
    ensures BusyBefore(log, x + 1) == BusyBefore(log, x) + CountCovering(log, x)
  {
    if log != [] { BusyAdvances(log[..|log| - 1], x); }
  }

  lemma {:induction false} CoveringCounts(log: Log, i: nat, day: nat)
    requires i < |log| && Covers(log[i], day)
    ensures CountCovering(log, day) >= 1
    ensures forall j | i < j < |log| && Covers(log[j], day) :: CountCovering(log, day) >= 2
  {
    if i < |log| - 1 {
      CoveringCounts(log[..|log| - 1], i, day);
    } else {
      assert CountCovering(log, day) >= 1;
    }
  }

  lemma {:induction false} BusyWithinTotal(log: Log, x: nat)
    requires forall k | 0 <= k < |log| :: log[k].start <= log[k].end
    ensures BusyBefore(log, x) <= TotalLaneDays(log)
  {
    if log != [] { BusyWithinTotal(log[..|log| - 1], x); }
  }

  ghost predicate BothBusy(log: Log, day: nat) {
    !Idle(log, 0, day) && !Idle(log, 1, day)
  }

  lemma BothBusyCounts(log: Log, day: nat)
    requires BothBusy(log, day)
    ensures CountCovering(log, day) >= 2
  {
    var i :| 0 <= i < |log| && log[i].lane == 0 && Covers(log[i], day);
    var j :| 0 <= j < |log| && log[j].lane == 1 && Covers(log[j], day);
    CoveringCounts(log, if i < j then i else j, day);
  }

  lemma {:induction false} BusyStretch(log: Log, lo: nat, hi: nat)
    requires lo <= hi && forall day | lo <= day < hi :: BothBusy(log, day)
    ensures BusyBefore(log, hi) >= BusyBefore(log, lo) + 2 * (hi - lo)
    decreases hi
  {
    if lo < hi {
      BusyStretch(log, lo, hi - 1);
      BusyAdvances(log, hi - 1);
      BothBusyCounts(log, hi - 1);
    }
  }

  lemma {:induction false} OwnStretch(log: Log, i: nat, x: nat)
    requires i < |log| && log[i].start <= x <= log[i].end + 1
    ensures BusyBefore(log, x) >= BusyBefore(log, log[i].start) + (x - log[i].start)
  {
    if log[i].start < x {
      OwnStretch(log, i, x - 1);
      BusyAdvances(log, x - 1);
      CoveringCounts(log, i, x - 1);
    }
  }

  /** The last day before `x` on which some lane is idle, or -1. */
  lemma LastIdleDay(log: Log, x: nat) returns (day: int, l: nat)
    ensures -1 <= day < x && l < 2
    ensures day >= 0 ==> Idle(log, l, day)
    ensures forall t: nat | day < t < x :: BothBusy(log, t)
  {
    day, l := x - 1, 0;
    while day >= 0 && BothBusy(log, day)
      invariant -1 <= day < x
      invariant forall t: nat | day < t < x :: BothBusy(log, t)
    {
      day := day - 1;
    }
    if day >= 0 && !Idle(log, 0, day) { l := 1; }
  }

  /** A chain of slots: each one's node is a dependency of the next one's. */
  ghost predicate SlotChain(g: Graph, log: Log, q: seq<nat>) {
    && q != []
    && (forall i | 0 <= i < |q| :: q[i] < |log| && log[q[i]].start <= log[q[i]].end)
    && (forall i | 0 < i < |q| :: Depends(g, log[q[i]].node, log[q[i - 1]].node))
  }

  function ChainDays(log: Log, q: seq<nat>): nat
    requires forall i | 0 <= i < |q| :: q[i] < |log| && log[q[i]].start <= log[q[i]].end
  {
    if q == [] then 0 else ChainDays(log, q[..|q| - 1]) + LaneDays(log[q[|q| - 1]])
  }

  /** `c` is on or after every evidenced completion, -1 when all lie before the first planning day. */
  ghost predicate CompletedBy(g: Graph, c: int) {
    -1 <= c && forall n | n in g.node && g.node[n].done :: g.node[n].completion <= c
  }

  /** What slot `j` was waiting for on an idle day: an earlier slot, or accepted work. */
  lemma AwaitedSlot(g: Graph, log: Log, c: int, j: nat, day: nat, l: nat) returns (i: nat, end: int)
    requires Run(g, log) && CompletedBy(g, c) && j < |log|
    requires l < 2 && Idle(log, l, day) && day < log[j].start
    ensures day <= end < log[j].start
    ensures i < j ==> end == log[i].end && Depends(g, log[j].node, log[i].node)
    ensures i >= j ==> end <= c
  {
    var d := NeverIdlesNeedlessly(g, log, l, day, j);
    i := EndsOrigin(g, log[..j], d) by { DecisionAt(g, log, j); }
    end := Ends(g, log[..j])[d];
    DependenciesFirst(g, log, j, d);
    EndsGrow(g, log, j, d);
  }

  lemma ExtendChain(g: Graph, log: Log, p: seq<nat>, j: nat)
    requires j < |log| && log[j].start <= log[j].end
    requires p == [] || (SlotChain(g, log, p) && Depends(g, log[j].node, log[p[|p| - 1]].node))
    ensures SlotChain(g, log, p + [j])
    ensures ChainDays(log, p + [j]) == ChainDays(log, p) + LaneDays(log[j])
  {
    assert (p + [j])[..|p|] == p;
  }

  /** Before slot `j` both lanes were busy ever since the slot it waited for (or, without one,
      since day `c`). */
  lemma BusySinceAwaited(g: Graph, log: Log, c: int, j: nat) returns (i: nat)
    requires Run(g, log) && CompletedBy(g, c) && j < |log|
    ensures i < j ==> Depends(g, log[j].node, log[i].node)
    ensures i < j ==>
      2 * log[j].start + BusyBefore(log, log[i].end + 1) <= BusyBefore(log, log[j].start) + 2 * (log[i].end + 1)
    ensures i >= j ==> 2 * log[j].start <= BusyBefore(log, log[j].start) + 2 * (c + 1)
  {
    var day, l := LastIdleDay(log, log[j].start);
    if day < 0 {
      i := j;
      BusyStretch(log, 0, log[j].start);
    } else {
      var end;
      i, end := AwaitedSlot(g, log, c, j, day, l);
      BusyStretch(log, end + 1, log[j].start);
    }
  }

  /** Up to the end of slot `j`, idle lane time is paid for by a chain that ends in `j`. */
  lemma {:induction false} GrahamUpTo(g: Graph, log: Log, c: int, j: nat) returns (q: seq<nat>)
    requires Run(g, log) && CompletedBy(g, c) && j < |log|
    requires forall k | 0 <= k < |log| :: log[k].start <= log[k].end
    ensures SlotChain(g, log, q) && q[|q| - 1] == j
    ensures 2 * (log[j].end + 1) <= BusyBefore(log, log[j].end + 1) + ChainDays(log, q) + 2 * (c + 1)
    decreases j
  {
    OwnStretch(log, j, log[j].end + 1);
    var p: seq<nat> := [];
    var i := BusySinceAwaited(g, log, c, j);
    if i < j { p := GrahamUpTo(g, log, c, i); }
    ExtendChain(g, log, p, j);
    q := p + [j];
  }

  lemma SlotsNonEmpty(g: Graph, log: Log)
    requires Run(g, log)
    ensures forall k | 0 <= k < |log| :: log[k].start <= log[k].end
  {
    forall k | 0 <= k < |log| ensures log[k].start <= log[k].end { PickAt(g, log, k); }
  }

  /** Twice the number of days up to any forecast end is at most all lane-days, plus the lane-days of
      one dependency chain, plus twice the days already taken by work accepted after the anchor. */
  lemma GrahamBound(g: Graph, log: Log, c: int, j: nat) returns (q: seq<nat>)
    requires Run(g, log) && CompletedBy(g, c) && j < |log|
    ensures forall k | 0 <= k < |log| :: log[k].start <= log[k].end
    ensures SlotChain(g, log, q) && q[|q| - 1] == j
    ensures 2 * (log[j].end + 1) <= TotalLaneDays(log) + ChainDays(log, q) + 2 * (c + 1)
  {
    SlotsNonEmpty(g, log);
    q := GrahamUpTo(g, log, c, j);
    BusyWithinTotal(log, log[j].end + 1);
  }
}
