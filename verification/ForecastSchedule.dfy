/** The two-lane list scheduler with its shared review pool. Days are calendar indices; work is
    counted in quarter-hours: 32 of implementation per lane-day, 16 of review per day for both lanes. */
module ForecastSchedule {
  import opened ForecastGraph

  /** One scheduling decision. `draws[i]` is the review taken on day `start + days + i`. */
  datatype Slot = Slot(node: int, lane: nat, start: nat, days: nat, draws: seq<nat>, end: nat)

  type Log = seq<Slot>

  function Max(a: int, b: int): int { if a < b then b else a }

  function Min(a: int, b: int): int { if b < a then b else a }

  /** A half-hour of effort is five quarter-hours of implementation and one of review. */
  function ImplementationDays(effort: nat): (r: nat)
    ensures r > 0 && 32 * r >= 5 * effort && (effort > 0 ==> 32 * (r - 1) < 5 * effort)
  {
    Max(1, (5 * effort + 31) / 32)
  }

  /** `lane[l]` after the decisions in `log`. */
  function LaneFree(log: Log, l: nat): nat {
    if log == [] then 0
    else if log[|log| - 1].lane == l then log[|log| - 1].end + 1
    else LaneFree(log[..|log| - 1], l)
  }

  function FirstFree(log: Log): nat {
    Min(LaneFree(log, 0), LaneFree(log, 1))
  }

  function Draw(s: Slot, day: nat): nat {
    if s.start + s.days <= day < s.start + s.days + |s.draws| then s.draws[day - s.start - s.days] else 0
  }

  /** `review[day]` after the decisions in `log`. */
  function Review(log: Log, day: nat): nat {
    if log == [] then 0 else Review(log[..|log| - 1], day) + Draw(log[|log| - 1], day)
  }

  /** `scheduled` after the decisions in `log`. */
  function Ends(g: Graph, log: Log): map<int, int> {
    if log == [] then map n | n in g.node && g.node[n].done :: g.node[n].completion
    else Ends(g, log[..|log| - 1])[log[|log| - 1].node := log[|log| - 1].end]
  }

  predicate AllIn(deps: seq<int>, ends: map<int, int>) {
    forall i | 0 <= i < |deps| :: deps[i] in ends
  }

  /** First day after every dependency, never before day 0. */
  function Earliest(ends: map<int, int>, deps: seq<int>): (r: nat)
    requires AllIn(deps, ends)
    ensures forall i | 0 <= i < |deps| :: ends[deps[i]] < r
    ensures r == 0 || exists i | 0 <= i < |deps| :: r == ends[deps[i]] + 1
  {
    if deps == [] then 0
    else Max(Earliest(ends, deps[..|deps| - 1]), ends[deps[|deps| - 1]] + 1)
  }

  predicate Remaining(g: Graph, log: Log, n: int) {
    n in g.node && n !in Ends(g, log)
  }

  predicate Ready(g: Graph, log: Log, n: int) {
    Remaining(g, log, n) && AllIn(g.node[n].deps, Ends(g, log))
  }

  /** The first component of the rank: the day on which the node could start. */
  function StartDay(g: Graph, log: Log, n: int): nat
    requires Ready(g, log, n)
  {
    Max(FirstFree(log), Earliest(Ends(g, log), g.node[n].deps))
  }

  predicate RankBefore(a: (int, int, int), b: (int, int, int)) {
    a.0 < b.0 || (a.0 == b.0 && (a.1 < b.1 || (a.1 == b.1 && a.2 < b.2)))
  }

  function Rank(g: Graph, log: Log, n: int): (int, int, int)
    requires Ready(g, log, n)
  {
    (StartDay(g, log, n), g.node[n].priority, n)
  }

  /** After this day no review has been drawn yet. */
  function Horizon(log: Log): (r: nat)
    ensures forall k | 0 <= k < |log| :: log[k].end < r && log[k].start + log[k].days + |log[k].draws| <= r
  {
    if log == [] then 0
    else
      var s := log[|log| - 1];
      Max(Horizon(log[..|log| - 1]), Max(s.end + 1, s.start + s.days + |s.draws|))
  }

  lemma {:induction false} NoReviewPastHorizon(log: Log, day: nat)
    requires Horizon(log) <= day
    ensures Review(log, day) == 0
  {
    if log != [] { NoReviewPastHorizon(log[..|log| - 1], day); }
  }

  ghost predicate WithinCapacity(log: Log) {
    forall day: nat :: Review(log, day) <= 16
  }

  /** The review loop: day by day, as much as the pool still has, until `left` is used up. */
  ghost function ReviewDraws(log: Log, day: nat, left: nat): (r: seq<nat>)
    requires WithinCapacity(log)
    ensures left > 0 ==> r != []
    decreases left, Max(0, Horizon(log) - day)
  {
    if left == 0 then []
    else
      assert day < Horizon(log) || Review(log, day) == 0 by {
        if Horizon(log) <= day { NoReviewPastHorizon(log, day); }
      }
      var use := Min(16 - Review(log, day), left);
      [use] + ReviewDraws(log, day + 1, left - use)
  }

  /** `n` is the ready node of least rank. */
  ghost predicate LeastRank(g: Graph, log: Log, n: int) {
    && Ready(g, log, n)
    && (forall m {:trigger Ready(g, log, m)} | m in g.node && m != n && Ready(g, log, m) ::
        RankBefore(Rank(g, log, n), Rank(g, log, m)))
  }

  /** `s` is the decision the scheduler takes after `log`. */
  ghost predicate Decides(g: Graph, log: Log, s: Slot) {
    && WithinCapacity(log)
    && LeastRank(g, log, s.node)
    && s.lane == (if LaneFree(log, 1) < LaneFree(log, 0) then 1 else 0)
    && s.start == StartDay(g, log, s.node)
    && s.days == ImplementationDays(g.node[s.node].effort)
    && s.draws == ReviewDraws(log, s.start + s.days, g.node[s.node].effort)
    && s.end == s.start + s.days + |s.draws| - 1
  }

  /** Every decision in `log` is the one the scheduler takes at that point. */
  ghost predicate Run(g: Graph, log: Log) {
    log == [] || (Run(g, log[..|log| - 1]) && Decides(g, log[..|log| - 1], log[|log| - 1]))
  }

  /** Every node that is not done has been given its slot. */
  ghost predicate Complete(g: Graph, log: Log) {
    forall n | n in g.node :: n in Ends(g, log)
  }

  // ---- One run, step by step ----

  lemma {:induction false} DecisionAt(g: Graph, log: Log, k: nat)
    requires Run(g, log) && k <= |log|
    ensures Run(g, log[..k])
    ensures k < |log| ==> Decides(g, log[..k], log[k])
  {
    if k == |log| {
      assert log[..k] == log;
    } else if k < |log| - 1 {
      var shorter := log[..|log| - 1];
      assert shorter[..k] == log[..k];
      DecisionAt(g, shorter, k);
    }
  }

  /** An entry of `scheduled` is never overwritten. */
  lemma {:induction false} EndsGrow(g: Graph, log: Log, k: nat, n: int)
    requires Run(g, log) && k <= |log| && n in Ends(g, log[..k])
    ensures n in Ends(g, log) && Ends(g, log)[n] == Ends(g, log[..k])[n]
  {
    if k == |log| {
      assert log[..k] == log;
    } else {
      var shorter := log[..|log| - 1];
      assert shorter[..k] == log[..k];
      EndsGrow(g, shorter, k, n);
    }
  }

  /** `scheduled` holds the done nodes and the nodes of the log, nothing else. */
  lemma {:induction false} EndsOrigin(g: Graph, log: Log, n: int) returns (k: nat)
    requires Run(g, log) && n in Ends(g, log)
    ensures n in g.node
    ensures k < |log| ==> log[k].node == n && Ends(g, log)[n] == log[k].end && !g.node[n].done
    ensures k >= |log| ==> g.node[n].done && Ends(g, log)[n] == g.node[n].completion
  {
    if log == [] {
      k := 0;
    } else if log[|log| - 1].node == n {
      k := |log| - 1;
      if g.node[n].done { DoneStay(g, log[..k], n); }
    } else {
      k := EndsOrigin(g, log[..|log| - 1], n);
      if k == |log| - 1 { k := |log|; }
    }
  }

  lemma {:induction false} DoneStay(g: Graph, log: Log, n: int)
    requires n in g.node && g.node[n].done
    ensures n in Ends(g, log)
  {
    if log != [] { DoneStay(g, log[..|log| - 1], n); }
  }

  lemma EndsAt(g: Graph, log: Log, k: nat)
    requires Run(g, log) && k < |log|
    ensures log[k].node in Ends(g, log) && Ends(g, log)[log[k].node] == log[k].end
    ensures log[k].node in g.node && !g.node[log[k].node].done
  {
    DecisionAt(g, log, k);
    DecisionAt(g, log, k + 1);
    assert log[..k + 1][..k] == log[..k];
    EndsGrow(g, log, k + 1, log[k].node);
    if g.node[log[k].node].done { DoneStay(g, log[..k], log[k].node); }
  }

  lemma {:induction false} LaneFreeGrows(g: Graph, log: Log, k: nat, l: nat)
    requires Run(g, log) && k <= |log| && l < 2
    ensures LaneFree(log[..k], l) <= LaneFree(log, l)
    ensures k < |log| && log[k].lane == l ==> log[k].end < LaneFree(log, l)
  {
    if k == |log| {
      assert log[..k] == log;
    } else {
      var shorter := log[..|log| - 1];
      assert shorter[..k] == log[..k];
      LaneFreeGrows(g, shorter, k, l);
    }
  }

  /** The slots of one lane never overlap and are taken in order. */
  lemma LanesDisjoint(g: Graph, log: Log, i: nat, j: nat)
    requires Run(g, log) && i < j < |log| && log[i].lane == log[j].lane
    ensures log[i].end < log[j].start
  {
    DecisionAt(g, log, j);
    assert log[..j][i] == log[i];
    LaneFreeGrows(g, log[..j], i, log[i].lane) by {
      DecisionAt(g, log, i);
    }
  }

  /** Every node starts after all its dependencies end. */
  lemma DependenciesFirst(g: Graph, log: Log, k: nat, d: int)
    requires Run(g, log) && k < |log| && Depends(g, log[k].node, d)
    ensures d in Ends(g, log) && Ends(g, log)[d] < log[k].start
  {
    DecisionAt(g, log, k);
    var deps := g.node[log[k].node].deps;
    var i :| 0 <= i < |deps| && deps[i] == d;
    EndsGrow(g, log, k, d);
  }

  // ---- Chronology and idleness ----

  /** The part of a decision that fixes the day: the earliest start any ready node could have. */
  ghost predicate PicksEarliest(g: Graph, log: Log, s: Slot) {
    && Ready(g, log, s.node)
    && s.start == StartDay(g, log, s.node) && s.start <= s.end
    && s.lane < 2 && LaneFree(log, s.lane) == FirstFree(log)
    && (forall m {:trigger Ready(g, log, m)} | m in g.node && Ready(g, log, m) :: s.start <= StartDay(g, log, m))
  }

  lemma PickAt(g: Graph, log: Log, k: nat)
    requires Run(g, log) && k < |log|
    ensures Run(g, log[..k]) && PicksEarliest(g, log[..k], log[k])
  {
    DecisionAt(g, log, k);
  }

  /** What one point of a run keeps of an earlier one. */
  ghost predicate Extends(g: Graph, early: Log, late: Log) {
    && FirstFree(early) <= FirstFree(late)
    && (forall n | n in Ends(g, early) :: n in Ends(g, late) && Ends(g, early)[n] == Ends(g, late)[n])
  }

  lemma RunExtends(g: Graph, log: Log, k: nat)
    requires Run(g, log) && k <= |log|
    ensures Extends(g, log[..k], log)
  {
    LaneFreeGrows(g, log, k, 0);
    LaneFreeGrows(g, log, k, 1);
    forall n | n in Ends(g, log[..k])
      ensures n in Ends(g, log) && Ends(g, log[..k])[n] == Ends(g, log)[n]
    {
      EndsGrow(g, log, k, n);
    }
  }

  lemma {:induction false} EarliestAgrees(early: map<int, int>, late: map<int, int>, deps: seq<int>)
    requires AllIn(deps, early) && forall n | n in early :: n in late && early[n] == late[n]
    ensures AllIn(deps, late) && Earliest(early, deps) == Earliest(late, deps)
  {
    if deps != [] { EarliestAgrees(early, late, deps[..|deps| - 1]); }
  }

  /** Seen from a later point, a node whose dependencies were already scheduled starts no earlier. */
  lemma StartDayGrows(g: Graph, early: Log, late: Log, m: int)
    requires Extends(g, early, late) && Ready(g, late, m) && AllIn(g.node[m].deps, Ends(g, early))
    ensures Ready(g, early, m) && StartDay(g, early, m) <= StartDay(g, late, m)
    ensures Earliest(Ends(g, early), g.node[m].deps) == Earliest(Ends(g, late), g.node[m].deps)
  {
    EarliestAgrees(Ends(g, early), Ends(g, late), g.node[m].deps);
  }

  /** No node that was ready, or waits for something scheduled since, starts before the pick. */
  lemma PickIsNoLater(g: Graph, early: Log, late: Log, s: Slot, m: int)
    requires PicksEarliest(g, early, s) && Extends(g, early, late) && Ready(g, late, m)
    requires AllIn(g.node[m].deps, Ends(g, early)) || exists i | 0 <= i < |g.node[m].deps| ::
        s.start <= Ends(g, late)[g.node[m].deps[i]]
    ensures s.start <= StartDay(g, late, m)
  {
    if AllIn(g.node[m].deps, Ends(g, early)) {
      StartDayGrows(g, early, late, m);
    }
  }

  /** A node scheduled at point `j` either was ready at point `k`, or depends on a decision in between. */
  lemma ReadyOrAwaits(g: Graph, log: Log, k: nat, m: int) returns (w: nat)
    requires Run(g, log) && k <= |log| && Ready(g, log, m)
    ensures w >= |log| ==> AllIn(g.node[m].deps, Ends(g, log[..k]))
    ensures w < |log| ==> k <= w && log[w].node in g.node[m].deps && Ends(g, log)[log[w].node] == log[w].end
  {
    w := |log|;
    if i :| 0 <= i < |g.node[m].deps| && g.node[m].deps[i] !in Ends(g, log[..k]) {
      var d := g.node[m].deps[i];
      w := EndsOrigin(g, log, d);
      if w >= |log| {
        DoneStay(g, log[..k], d);
      } else if w < k {
        DecisionAt(g, log, k);
        EndsAt(g, log[..k], w);
      }
    }
  }

  lemma StartsNeverDecreaseStep(g: Graph, log: Log, k: nat)
    requires Run(g, log) && k + 1 < |log|
    ensures log[k].start <= log[k + 1].start
  {
    var before, after, m := log[..k], log[..k + 1], log[k + 1].node;
    PickAt(g, log, k + 1);
    PickAt(g, log, k);
    assert after[..k] == before && after[k] == log[k];
    var w := ReadyOrAwaits(g, after, k, m);
    RunExtends(g, after, k);
    PickIsNoLater(g, before, after, log[k], m);
  }

  /** Start days never decrease in scheduling order. */
  lemma {:induction false} StartsNeverDecrease(g: Graph, log: Log, i: nat, j: nat)
    requires Run(g, log) && i <= j < |log|
    ensures log[i].start <= log[j].start
    decreases j - i
  {
    if i < j {
      StartsNeverDecreaseStep(g, log, i);
      StartsNeverDecrease(g, log, i + 1, j);
    }
  }

  predicate Covers(s: Slot, day: nat) {
    s.start <= day <= s.end
  }

  ghost predicate Idle(log: Log, l: nat, day: nat) {
    forall k | 0 <= k < |log| && log[k].lane == l :: !Covers(log[k], day)
  }

  /** The decision that carried a lane past a day. */
  lemma {:induction false} Crossing(log: Log, l: nat, day: nat) returns (k: nat)
    requires day < LaneFree(log, l)
    ensures k < |log| && log[k].lane == l && LaneFree(log[..k], l) <= day <= log[k].end
  {
    var shorter := log[..|log| - 1];
    if log[|log| - 1].lane == l && LaneFree(shorter, l) <= day {
      k := |log| - 1;
    } else {
      k := Crossing(shorter, l, day);
      assert shorter[..k] == log[..k];
    }
  }

  lemma LastAwaited(ends: map<int, int>, deps: seq<int>, day: nat) returns (d: int)
    requires AllIn(deps, ends) && day < Earliest(ends, deps)
    ensures d in deps && d in ends && day <= ends[d]
  {
    var i :| 0 <= i < |deps| && Earliest(ends, deps) == ends[deps[i]] + 1;
    d := deps[i];
  }

  /** A lane that is idle on a day it has already passed skipped that day in one decision. */
  lemma IdleDaySkipped(g: Graph, log: Log, l: nat, day: nat, j: nat) returns (k: nat)
    requires Run(g, log) && l < 2 && Idle(log, l, day) && j <= |log| && day < LaneFree(log[..j], l)
    ensures k < j && day < log[k].start && FirstFree(log[..k]) <= day
  {
    k := Crossing(log[..j], l, day);
    assert log[..j][..k] == log[..k] && log[..j][k] == log[k];
    assert !Covers(log[k], day);
    PickAt(g, log, k);
  }

  /** Once the scheduler has found every ready node waiting past a day, so is every later node. */
  lemma WaitsSince(g: Graph, log: Log, k: nat, j: nat, day: nat) returns (d: int)
    requires Run(g, log) && k <= j < |log| && FirstFree(log[..k]) <= day < log[k].start
    ensures Depends(g, log[j].node, d) && d in Ends(g, log[..j]) && Ends(g, log[..j])[d] >= day
  {
    var m, here := log[j].node, log[..j];
    PickAt(g, log, j);
    PickAt(g, log, k);
    assert here[..k] == log[..k];
    var w := ReadyOrAwaits(g, here, k, m);
    if w < |here| {
      assert here[w] == log[w];
      d := log[w].node;
      StartsNeverDecrease(g, log, k, w);
      PickAt(g, log, w);
    } else {
      RunExtends(g, here, k);
      StartDayGrows(g, log[..k], here, m);
      d := LastAwaited(Ends(g, here), g.node[m].deps, day);
    }
  }

  /** If a lane is idle on a day, every node that starts later waits for a dependency that
      ends on that day or after it. */
  lemma NeverIdlesNeedlessly(g: Graph, log: Log, l: nat, day: nat, j: nat) returns (d: int)
    requires Run(g, log) && l < 2 && Idle(log, l, day) && j < |log| && day < log[j].start
    ensures Depends(g, log[j].node, d) && d in Ends(g, log[..j]) && Ends(g, log[..j])[d] >= day
  {
    var k := j;
    if day < LaneFree(log[..j], l) {
      k := IdleDaySkipped(g, log, l, day, j);
    }
    d := WaitsSince(g, log, k, j, day);
  }
}
