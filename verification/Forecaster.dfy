/** The scheduling loops themselves, over a calendar of fixed length. */
module Forecaster {
  import opened ForecastGraph
  import opened ForecastSchedule
  import opened ForecastFeasibility

  /** `CalendarExhausted` stands for the index error of a calendar that is too short. */
  datatype Plan = Planned(log: Log) | CalendarExhausted(log: Log)

  ghost predicate Answers(g: Graph, calendar: nat, plan: Plan) {
    && Run(g, plan.log)
    && (forall k | 0 <= k < |plan.log| :: plan.log[k].end < calendar)
    && (if plan.Planned? then Complete(g, plan.log) else exists s :: Decides(g, plan.log, s) && calendar <= s.end)
  }

  /** `min(ready, key=rank)`. */
  method PickNode(g: Graph, lane: seq<nat>, scheduled: map<int, int>, remaining: set<int>, ghost order: seq<int>,
      ghost log: Log)
    returns (n: int)
    requires Valid(g) && Topological(g, order) && Run(g, log) && !Complete(g, log)
    requires |lane| == 2 && Min(lane[0], lane[1]) == FirstFree(log) && scheduled == Ends(g, log)
    requires forall m :: m in remaining <==> Remaining(g, log, m)
    ensures LeastRank(g, log, n)
  {
    var best := (0, 0, 0);
    var found := false;
    for i := 0 to |g.listing|
      invariant found ==> Ready(g, log, best.2) && best == Rank(g, log, best.2)
      invariant forall j | 0 <= j < i && Ready(g, log, g.listing[j]) ::
        found && (g.listing[j] == best.2 || RankBefore(best, Rank(g, log, g.listing[j])))
    {
      var m := g.listing[i];
      if m in remaining && AllIn(g.node[m].deps, scheduled) {
        var rank := (Max(Min(lane[0], lane[1]), Earliest(scheduled, g.node[m].deps)), g.node[m].priority, m);
        assert rank == Rank(g, log, m);
        if !found || RankBefore(rank, best) { best, found := rank, true; }
      }
    }
    ghost var ready := ReadyNodeExists(g, order, log);
    n := best.2;
  }

  function Taken(first: nat, draws: seq<nat>, day: nat): nat {
    if first <= day < first + |draws| then draws[day - first] else 0
  }

  /** The pool holds the review of `log` and, on top, `draws` from day `first` on. */
  ghost predicate PoolHolds(review: seq<nat>, log: Log, first: nat, draws: seq<nat>) {
    forall day: nat | day < |review| :: review[day] == Review(log, day) + Taken(first, draws, day)
  }

  lemma DrawOnce(review: seq<nat>, log: Log, first: nat, draws: seq<nat>, effort: nat, left: nat)
    requires WithinCapacity(log) && left > 0 && PoolHolds(review, log, first, draws)
    requires ReviewDraws(log, first, effort) == draws + ReviewDraws(log, first + |draws|, left)
    ensures var ri := first + |draws|; ri < |review| ==>
      && review[ri] == Review(log, ri) <= 16
      && (var use := Min(16 - review[ri], left);
        && PoolHolds(review[ri := review[ri] + use], log, first, draws + [use])
        && ReviewDraws(log, first, effort) == draws + [use] + ReviewDraws(log, ri + 1, left - use))
  {
  }

  /** The review loop: draws from the pool in place, or runs off the end of the calendar. */
  method DrawReview(review: array<nat>, first: nat, effort: nat, ghost log: Log) returns (draws: seq<nat>, enough: bool)
    requires WithinCapacity(log) && PoolHolds(review[..], log, first, [])
    modifies review
    ensures enough ==> draws == ReviewDraws(log, first, effort) && PoolHolds(review[..], log, first, draws)
    ensures !enough ==> review.Length < first + |ReviewDraws(log, first, effort)|
  {
    var ri, left: nat := first, effort;
    draws := [];
    while left > 0
      invariant left > 0 ==> ri == first + |draws|
      invariant PoolHolds(review[..], log, first, draws)
      invariant ReviewDraws(log, first, effort) == draws + ReviewDraws(log, first + |draws|, left)
      decreases review.Length - ri, left
    {
      if ri >= review.Length { return draws, false; }
      DrawOnce(review[..], log, first, draws, effort, left);
      var use := Min(16 - review[ri], left);
      ghost var after := review[..][ri := review[ri] + use];
      review[ri] := review[ri] + use;
      assert review[..] == after;
      left := left - use;
      draws := draws + [use];
      if left > 0 { ri := ri + 1; }
    }
    enough := true;
  }

  /** The loop state of the scheduler stands for the decisions taken so far. */
  ghost predicate Holds(g: Graph, calendar: nat, log: Log, lane: seq<nat>, scheduled: map<int, int>,
      remaining: set<int>) {
    && Run(g, log) && (forall k | 0 <= k < |log| :: log[k].end < calendar)
    && |lane| == 2 && lane[0] == LaneFree(log, 0) && lane[1] == LaneFree(log, 1)
    && scheduled == Ends(g, log)
    && (forall n :: n in remaining <==> Remaining(g, log, n))
  }

  lemma HoldsAfter(g: Graph, calendar: nat, log: Log, lane: seq<nat>, scheduled: map<int, int>, remaining: set<int>,
      s: Slot)
    requires Holds(g, calendar, log, lane, scheduled, remaining) && Decides(g, log, s) && s.end < calendar
    ensures Holds(g, calendar, log + [s], lane[s.lane := s.end + 1], scheduled[s.node := s.end], remaining - {s.node})
  {
    assert (log + [s])[..|log|] == log;
  }

  lemma PoolAfter(review: seq<nat>, log: Log, s: Slot)
    requires PoolHolds(review, log, s.start + s.days, s.draws)
    ensures PoolHolds(review, log + [s], 0, [])
  {
    assert (log + [s])[..|log|] == log;
  }

  lemma CompleteWhenEmpty(g: Graph, calendar: nat, log: Log, lane: seq<nat>, scheduled: map<int, int>,
      remaining: set<int>)
    requires Holds(g, calendar, log, lane, scheduled, remaining)
    ensures Complete(g, log) <==> remaining == {}
  {
    forall n | n in g.node && n !in Ends(g, log) ensures remaining != {} {
      assert Remaining(g, log, n);
    }
    if Complete(g, log) {
      forall n ensures n !in remaining {
        assert n in g.node ==> n in Ends(g, log);
      }
    }
  }

  /** The values computed by the loop body are those of the decision due after `log`. */
  lemma ComputesDecision(g: Graph, log: Log, lane: seq<nat>, n: int, l: nat, start: nat, days: nat, first: nat,
      due: seq<nat>)
    returns (s: Slot)
    requires WithinCapacity(log) && LeastRank(g, log, n)
    requires |lane| == 2 && lane[0] == LaneFree(log, 0) && lane[1] == LaneFree(log, 1)
    requires l == (if lane[1] < lane[0] then 1 else 0)
    requires start == Max(lane[l], Earliest(Ends(g, log), g.node[n].deps))
    requires days == ImplementationDays(g.node[n].effort) && first == start + days
    requires due == ReviewDraws(log, first, g.node[n].effort)
    ensures s == Slot(n, l, start, days, due, first + |due| - 1) && Decides(g, log, s)
  {
    s := Slot(n, l, start, days, due, first + |due| - 1);
  }

  /** One pass of the loop body, up to the point where the calendar may prove too short. */
  method Decide(g: Graph, lane: seq<nat>, review: array<nat>, scheduled: map<int, int>, remaining: set<int>,
      ghost order: seq<int>, ghost log: Log)
    returns (s: Slot, ghost due: Slot, enough: bool)
    requires Valid(g) && Topological(g, order) && Holds(g, review.Length, log, lane, scheduled, remaining)
    requires remaining != {} && PoolHolds(review[..], log, 0, [])
    modifies review
    ensures Decides(g, log, due) && enough == (due.end < review.Length)
    ensures enough ==> s == due && PoolHolds(review[..], log + [s], 0, [])
  {
    CompleteWhenEmpty(g, review.Length, log, lane, scheduled, remaining);
    var n := PickNode(g, lane, scheduled, remaining, order, log);
    var l := if lane[1] < lane[0] then 1 else 0;
    var start := Max(lane[l], Earliest(scheduled, g.node[n].deps));
    var days, effort := ImplementationDays(g.node[n].effort), g.node[n].effort;
    var first := start + days;
    RunWithinCapacity(g, log);
    due := ComputesDecision(g, log, lane, n, l, start, days, first, ReviewDraws(log, first, effort));
    var draws;
    draws, enough := DrawReview(review, first, effort, log);
    s := Slot(n, l, start, days, draws, first + |draws| - 1);
    enough := enough && s.end < review.Length;
    if enough { PoolAfter(review[..], log, due); }
  }

  method Schedule(g: Graph, calendar: nat, ghost order: seq<int>) returns (plan: Plan)
    requires Valid(g) && Topological(g, order)
    ensures Answers(g, calendar, plan)
  {
    var lane: seq<nat> := [0, 0];
    var review := new nat[calendar](_ => 0);
    var scheduled := map n | n in g.node && g.node[n].done :: g.node[n].completion;
    var remaining := set n | n in g.node && !g.node[n].done;
    var log: Log := [];
    while remaining != {}
      invariant Holds(g, calendar, log, lane, scheduled, remaining)
      invariant PoolHolds(review[..], log, 0, [])
      decreases |remaining|
    {
      var s, due, enough := Decide(g, lane, review, scheduled, remaining, order, log);
      if !enough { return CalendarExhausted(log); }
      HoldsAfter(g, calendar, log, lane, scheduled, remaining, s);
      log := log + [s];
      scheduled, lane, remaining := scheduled[s.node := s.end], lane[s.lane := s.end + 1], remaining - {s.node};
    }
    CompleteWhenEmpty(g, calendar, log, lane, scheduled, remaining);
    plan := Planned(log);
  }
}
