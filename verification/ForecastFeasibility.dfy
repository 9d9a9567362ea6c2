/** The schedule respects capacity, and the loops that build it cannot get stuck. */
module ForecastFeasibility {
  import opened ForecastGraph
  import opened ForecastSchedule

  function Sum(s: seq<nat>): nat {
    if s == [] then 0 else s[0] + Sum(s[1..])
  }

  /** The `i`-th draw stays within its day's capacity, and fills it unless it is the last. */
  ghost predicate Fits(log: Log, day: nat, draws: seq<nat>, i: nat) {
    i < |draws| ==>
      && draws[i] + Review(log, day + i) <= 16
      && (i < |draws| - 1 ==> draws[i] + Review(log, day + i) == 16)
  }

  /** The review loop takes exactly what is due, fills every day but the last, and ends on a day
      it really draws from. */
  lemma {:induction false} DrawsFit(log: Log, day: nat, left: nat)
    requires WithinCapacity(log)
    ensures Sum(ReviewDraws(log, day, left)) == left
    ensures forall i: nat :: Fits(log, day, ReviewDraws(log, day, left), i)
    ensures left > 0 ==> ReviewDraws(log, day, left)[|ReviewDraws(log, day, left)| - 1] > 0
    decreases left, Max(0, Horizon(log) - day)
  {
    if left > 0 {
      var use := Min(16 - Review(log, day), left);
      if Horizon(log) <= day { NoReviewPastHorizon(log, day); }
      DrawsFit(log, day + 1, left - use);
      var r, rest := ReviewDraws(log, day, left), ReviewDraws(log, day + 1, left - use);
      assert r == [use] + rest && r[1..] == rest;
      forall i: nat ensures Fits(log, day, r, i) {
        if i > 0 { assert Fits(log, day + 1, rest, i - 1); }
      }
    }
  }

  lemma DrawsAt(g: Graph, log: Log, k: nat, i: nat)
    requires Run(g, log) && k < |log|
    ensures log[k].node in g.node && Sum(log[k].draws) == g.node[log[k].node].effort
    ensures log[k].end == log[k].start + log[k].days + |log[k].draws| - 1
    ensures log[k].draws != [] ==> log[k].draws[|log[k].draws| - 1] > 0
    ensures Fits(log[..k], log[k].start + log[k].days, log[k].draws, i)
  {
    DecisionAt(g, log, k);
    DrawsFit(log[..k], log[k].start + log[k].days, g.node[log[k].node].effort);
  }

  /** No review day ever holds more than four hours. */
  lemma {:induction false} ReviewWithinCapacity(g: Graph, log: Log, day: nat)
    requires Run(g, log)
    ensures Review(log, day) <= 16
  {
    if log != [] {
      var before, s := log[..|log| - 1], log[|log| - 1];
      ReviewWithinCapacity(g, before, day);
      if s.start + s.days <= day { DrawsAt(g, log, |before|, day - s.start - s.days); }
    }
  }

  lemma RunWithinCapacity(g: Graph, log: Log)
    requires Run(g, log)
    ensures WithinCapacity(log)
  {
    forall day: nat ensures Review(log, day) <= 16 { ReviewWithinCapacity(g, log, day); }
  }

  lemma ReviewAfter(log: Log, k: nat, day: nat)
    requires k < |log|
    ensures Review(log[..k + 1], day) == Review(log[..k], day) + Draw(log[k], day)
  {
    assert log[..k + 1][..k] == log[..k];
  }

  lemma {:induction false} ReviewGrows(log: Log, k: nat, day: nat)
    requires k <= |log|
    ensures Review(log[..k], day) <= Review(log, day)
  {
    if k == |log| {
      assert log[..k] == log;
    } else {
      assert log[..|log| - 1][..k] == log[..k];
      ReviewGrows(log[..|log| - 1], k, day);
    }
  }

  /** Every review day of a node before its last one is full. */
  lemma FullBeforeLastDay(g: Graph, log: Log, k: nat, day: nat)
    requires Run(g, log) && k < |log| && log[k].start + log[k].days <= day < log[k].end
    ensures Review(log, day) == 16
  {
    var s := log[k];
    DrawsAt(g, log, k, day - s.start - s.days);
    ReviewAfter(log, k, day);
    ReviewGrows(log, k + 1, day);
    ReviewWithinCapacity(g, log, day);
  }

  /** A day's review goes to at most two nodes. */
  lemma AtMostTwoDraw(g: Graph, log: Log, day: nat, i: nat, j: nat, k: nat)
    requires Run(g, log) && i < j < k < |log|
    ensures Draw(log[i], day) == 0 || Draw(log[j], day) == 0 || Draw(log[k], day) == 0
  {
    forall m | m in {i, j, k} && Draw(log[m], day) > 0
      ensures log[m].lane < 2 && log[m].start <= day <= log[m].end
    {
      DecisionAt(g, log, m);
    }
    if log[i].lane == log[j].lane { LanesDisjoint(g, log, i, j); }
    if log[i].lane == log[k].lane { LanesDisjoint(g, log, i, k); }
    if log[j].lane == log[k].lane { LanesDisjoint(g, log, j, k); }
  }

  function ReviewTotal(log: Log, x: nat): nat {
    if x == 0 then 0 else ReviewTotal(log, x - 1) + Review(log, x - 1)
  }

  function EffortTotal(g: Graph, log: Log): nat
    requires forall k | 0 <= k < |log| :: log[k].node in g.node
  {
    if log == [] then 0 else EffortTotal(g, log[..|log| - 1]) + g.node[log[|log| - 1].node].effort
  }

  function DrawTotal(s: Slot, x: nat): nat {
    if x == 0 then 0 else DrawTotal(s, x - 1) + Draw(s, x - 1)
  }

  lemma {:induction false} ReviewTotalSplits(log: Log, x: nat)
    requires log != []
    ensures ReviewTotal(log, x) == ReviewTotal(log[..|log| - 1], x) + DrawTotal(log[|log| - 1], x)
  {
    if x > 0 { ReviewTotalSplits(log, x - 1); }
  }

  lemma {:induction false} SumSplits(s: seq<nat>, k: nat)
    requires k < |s|
    ensures Sum(s[..k + 1]) == Sum(s[..k]) + s[k]
  {
    if k > 0 {
      assert s[..k + 1][1..] == s[1..][..k] && s[..k][1..] == s[1..][..k - 1];
      SumSplits(s[1..], k - 1);
    } else {
      assert s[..1][1..] == [];
    }
  }

  lemma {:induction false} DrawTotalIsSum(s: Slot, x: nat)
    ensures x <= s.start + s.days ==> DrawTotal(s, x) == 0
    ensures s.start + s.days <= x <= s.start + s.days + |s.draws| ==>
        DrawTotal(s, x) == Sum(s.draws[..x - s.start - s.days])
    ensures s.start + s.days + |s.draws| <= x ==> DrawTotal(s, x) == Sum(s.draws)
  {
    assert s.draws[..|s.draws|] == s.draws;
    if x > 0 {
      DrawTotalIsSum(s, x - 1);
      var i := x - 1 - s.start - s.days;
      if 0 <= i < |s.draws| { SumSplits(s.draws, i); }
    }
  }

  lemma {:induction false} NoReviewTotal(x: nat)
    ensures ReviewTotal([], x) == 0
  {
    if x > 0 { NoReviewTotal(x - 1); }
  }

  /** Once past the horizon, all review drawn is one quarter-hour per half-hour of effort. */
  lemma {:induction false} ReviewEqualsEffort(g: Graph, log: Log, x: nat)
    requires Run(g, log) && Horizon(log) <= x
    ensures forall k | 0 <= k < |log| :: log[k].node in g.node
    ensures ReviewTotal(log, x) == EffortTotal(g, log)
  {
    forall k | 0 <= k < |log| ensures log[k].node in g.node { EndsAt(g, log, k); }
    if log == [] {
      NoReviewTotal(x);
    } else {
      var before, s := log[..|log| - 1], log[|log| - 1];
      ReviewEqualsEffort(g, before, x);
      ReviewTotalSplits(log, x);
      DrawTotalIsSum(s, x);
      DrawsAt(g, log, |before|, 0);
    }
  }

  /** The finished log holds each node that is not done exactly once, and no other. */
  lemma EachNodeOnce(g: Graph, log: Log, n: int) returns (k: nat)
    requires Run(g, log) && Complete(g, log)
    ensures k < |log| <==> n in g.node && !g.node[n].done
    ensures k < |log| ==> log[k].node == n
    ensures forall j | 0 <= j < |log| && log[j].node == n :: j == k
  {
    k := |log|;
    if n in g.node { k := EndsOrigin(g, log, n); }
    forall j | 0 <= j < |log| && log[j].node == n ensures j == k {
      EndsAt(g, log, j);
      if j < k { SlotsOfOneNode(g, log, j, k); }
      if k < j { SlotsOfOneNode(g, log, k, j); }
    }
  }

  lemma SlotsOfOneNode(g: Graph, log: Log, i: nat, j: nat)
    requires Run(g, log) && i < j < |log|
    ensures log[i].node != log[j].node
  {
    DecisionAt(g, log, j);
    EndsAt(g, log[..j], i);
  }

  /** As long as a node remains, some node is ready. */
  lemma ReadyNodeExists(g: Graph, order: seq<int>, log: Log) returns (n: int)
    requires Valid(g) && Topological(g, order) && Run(g, log) && !Complete(g, log)
    ensures Ready(g, log, n)
  {
    var m :| m in g.node && m !in Ends(g, log);
    var i :| 0 <= i < |order| && order[i] == m;
    i := FirstUnscheduled(order, Ends(g, log), i);
    n := order[i];
    var deps := g.node[n].deps;
    forall k | 0 <= k < |deps| ensures deps[k] in Ends(g, log) {
      DependencyEarlier(g, order, i, deps[k]);
    }
  }

  lemma DependencyEarlier(g: Graph, order: seq<int>, i: nat, d: int)
    requires DepsFirst(g, order) && i < |order| && Depends(g, order[i], d)
    ensures exists j :: 0 <= j < i && order[j] == d
  {
    assert d in order[..i];
  }

  lemma {:induction false} FirstUnscheduled(order: seq<int>, ends: map<int, int>, i: nat) returns (k: nat)
    requires i < |order| && order[i] !in ends
    ensures k < |order| && order[k] !in ends && forall j | 0 <= j < k :: order[j] in ends
  {
    if j :| 0 <= j < i && order[j] !in ends {
      k := FirstUnscheduled(order, ends, j);
    } else {
      k := i;
    }
  }
}
