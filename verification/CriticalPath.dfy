/** The critical-path pass: longest chains through the graph, ignoring lanes and review. Durations are
    half-hours, 16 of them to an eight-hour day. */
module CriticalPath {
  import opened ForecastGraph
  import opened ForecastSchedule
  import opened ForecastFeasibility

  function Duration(g: Graph, n: int): nat
    requires n in g.node
  {
    if g.node[n].done then 0 else 3 * g.node[n].effort
  }

  function Weight(g: Graph, p: seq<int>): nat
    requires forall i | 0 <= i < |p| :: p[i] in g.node
  {
    if p == [] then 0 else Weight(g, p[..|p| - 1]) + Duration(g, p[|p| - 1])
  }

  lemma {:induction false} WeightConcat(g: Graph, p: seq<int>, q: seq<int>)
    requires forall i | 0 <= i < |p| :: p[i] in g.node
    requires forall i | 0 <= i < |q| :: q[i] in g.node
    ensures forall i | 0 <= i < |p + q| :: (p + q)[i] in g.node
    ensures Weight(g, p + q) == Weight(g, p) + Weight(g, q)
  {
    if q == [] {
      assert p + q == p;
    } else {
      assert (p + q)[..|p + q| - 1] == p + q[..|q| - 1];
      WeightConcat(g, p, q[..|q| - 1]);
    }
  }

  ghost predicate ChainTo(g: Graph, p: seq<int>, n: int) {
    Chain(g, p) && p[|p| - 1] == n
  }

  ghost predicate ChainFrom(g: Graph, p: seq<int>, n: int) {
    Chain(g, p) && p[0] == n
  }

  /** `w` is the weight of the heaviest chain that ends in `n`. */
  ghost predicate HeaviestTo(g: Graph, n: int, w: int) {
    && (exists p :: ChainTo(g, p, n) && Weight(g, p) == w)
    && (forall p | ChainTo(g, p, n) :: Weight(g, p) <= w)
  }

  /** `w` is the weight of the heaviest chain that starts in `n`. */
  ghost predicate HeaviestFrom(g: Graph, n: int, w: int) {
    && (exists p :: ChainFrom(g, p, n) && Weight(g, p) == w)
    && (forall p | ChainFrom(g, p, n) :: Weight(g, p) <= w)
  }

  /** `w` is the weight of the heaviest chain that passes through `n`. */
  ghost predicate HeaviestThrough(g: Graph, n: int, w: int) {
    && (exists p :: Chain(g, p) && n in p && Weight(g, p) == w)
    && (forall p | Chain(g, p) && n in p :: Weight(g, p) <= w)
  }

  /** `w` is the weight of the heaviest chain of the whole graph. */
  ghost predicate Heaviest(g: Graph, w: int) {
    && (exists p :: Chain(g, p) && Weight(g, p) == w)
    && (forall p | Chain(g, p) :: Weight(g, p) <= w)
  }

  lemma ChainSplit(g: Graph, p: seq<int>, i: nat)
    requires Chain(g, p) && i < |p|
    ensures ChainTo(g, p[..i + 1], p[i]) && ChainFrom(g, p[i..], p[i])
    ensures Weight(g, p) + Duration(g, p[i]) == Weight(g, p[..i + 1]) + Weight(g, p[i..])
  {
    assert p == p[..i] + p[i..] && p[..i + 1][..i] == p[..i];
    WeightConcat(g, p[..i], p[i..]);
  }

  lemma ChainJoin(g: Graph, p: seq<int>, q: seq<int>, n: int)
    requires ChainTo(g, p, n) && ChainFrom(g, q, n)
    ensures var r := p[..|p| - 1] + q;
      Chain(g, r) && n in r && Weight(g, r) + Duration(g, n) == Weight(g, p) + Weight(g, q)
  {
    WeightConcat(g, p[..|p| - 1], q);
    assert (p[..|p| - 1] + q)[|p| - 1] == n;
  }

  /** The heaviest chain through a node joins the heaviest one into it with the heaviest one out of it. */
  lemma ThroughIsToPlusFrom(g: Graph, n: int, into: int, out: int, through: int)
    requires n in g.node && HeaviestTo(g, n, into) && HeaviestFrom(g, n, out) && through == into + out - Duration(g, n)
    ensures HeaviestThrough(g, n, through)
  {
    var p :| ChainTo(g, p, n) && Weight(g, p) == into;
    var q :| ChainFrom(g, q, n) && Weight(g, q) == out;
    ChainJoin(g, p, q, n);
    forall r | Chain(g, r) && n in r ensures Weight(g, r) <= through {
      var i :| 0 <= i < |r| && r[i] == n;
      ChainSplit(g, r, i);
    }
  }

  ghost predicate FinishExact(g: Graph, finish: map<int, int>) {
    forall n {:trigger finish[n]} | n in finish :: n in g.node && HeaviestTo(g, n, finish[n])
  }

  /** What the pass promises of each node: its float is how much heavier the heaviest chain of the
      graph is than the heaviest chain through the node. */
  ghost predicate ExactSlack(g: Graph, terminal: int, finish: map<int, int>, latest: map<int, int>) {
    && Heaviest(g, terminal)
    && finish.Keys == g.node.Keys && latest.Keys == g.node.Keys
    && FinishExact(g, finish)
    && (forall n {:trigger latest[n]} | n in g.node :: HeaviestThrough(g, n, terminal - (latest[n] - finish[n])))
  }

  ghost predicate HeaviestChain(g: Graph, p: seq<int>) {
    Chain(g, p) && forall q | Chain(g, q) :: Weight(g, q) <= Weight(g, p)
  }

  lemma HeaviestThroughIsHeaviest(g: Graph, terminal: int, n: int, w: int)
    requires Heaviest(g, terminal) && HeaviestThrough(g, n, w)
    ensures w <= terminal
    ensures w == terminal <==> exists p :: HeaviestChain(g, p) && n in p
  {
    var p :| Chain(g, p) && n in p && Weight(g, p) == w;
    var h :| Chain(g, h) && Weight(g, h) == terminal;
    if w == terminal { assert HeaviestChain(g, p); }
  }

  /** A node has no float exactly when it lies on a heaviest chain; float is never negative. */
  lemma CriticalIffOnHeaviestChain(g: Graph, terminal: int, finish: map<int, int>, latest: map<int, int>, n: int)
    requires n in g.node
    ensures ExactSlack(g, terminal, finish, latest) ==>
      && latest[n] - finish[n] >= 0
      && (latest[n] - finish[n] == 0 <==> exists p :: HeaviestChain(g, p) && n in p)
  {
    if ExactSlack(g, terminal, finish, latest) {
      HeaviestThroughIsHeaviest(g, terminal, n, terminal - (latest[n] - finish[n]));
    }
  }

  ghost predicate IsMaxOf(finish: map<int, int>, deps: seq<int>, w: int)
    requires AllIn(deps, finish)
  {
    && 0 <= w && (forall i | 0 <= i < |deps| :: finish[deps[i]] <= w)
    && (w == 0 || exists i :: 0 <= i < |deps| && finish[deps[i]] == w)
  }

  lemma FinishStep(g: Graph, n: int, w: int, finish: map<int, int>)
    requires n in g.node && AllIn(g.node[n].deps, finish) && IsMaxOf(finish, g.node[n].deps, w)
    requires FinishExact(g, finish)
    ensures HeaviestTo(g, n, w + Duration(g, n))
  {
    var deps := g.node[n].deps;
    if i :| 0 <= i < |deps| && finish[deps[i]] == w {
      var d := deps[i];
      var p :| ChainTo(g, p, d) && Weight(g, p) == w;
      assert (p + [n])[..|p|] == p && ChainTo(g, p + [n], n);
    } else {
      assert [n][..0] == [] && ChainTo(g, [n], n);
    }
    forall p | ChainTo(g, p, n) ensures Weight(g, p) <= w + Duration(g, n) {
      if |p| > 1 {
        assert Depends(g, p[|p| - 1], p[|p| - 2]) && ChainTo(g, p[..|p| - 1], p[|p| - 2]);
        var i :| 0 <= i < |deps| && deps[i] == p[|p| - 2];
        assert HeaviestTo(g, deps[i], finish[deps[i]]);
      }
    }
  }

  lemma LatestStep(g: Graph, n: int, w: int, succ: seq<int>, tail: map<int, int>)
    requires n in g.node && (forall s :: s in succ <==> Depends(g, s, n))
    requires AllIn(succ, tail) && IsMaxOf(tail, succ, w)
    requires forall s {:trigger tail[s]} | s in tail :: HeaviestFrom(g, s, tail[s])
    ensures HeaviestFrom(g, n, w + Duration(g, n))
  {
    assert [n][..0] == [] && Weight(g, [n]) == Duration(g, n);
    if i :| 0 <= i < |succ| && tail[succ[i]] == w {
      var p :| ChainFrom(g, p, succ[i]) && Weight(g, p) == w;
      WeightConcat(g, [n], p);
      assert succ[i] in succ && ChainFrom(g, [n] + p, n);
    } else {
      assert ChainFrom(g, [n], n);
    }
    forall p | ChainFrom(g, p, n) ensures Weight(g, p) <= w + Duration(g, n) {
      if |p| > 1 {
        assert Depends(g, p[1], p[0]) && ChainFrom(g, p[1..], p[1]);
        var i :| 0 <= i < |succ| && succ[i] == p[1];
        assert p == [n] + p[1..];
        WeightConcat(g, [n], p[1..]);
      }
    }
  }

  /** `max([finish[d] for d in deps] + [0])`. */
  method MaxOf(finish: map<int, int>, deps: seq<int>) returns (w: int)
    requires AllIn(deps, finish)
    ensures IsMaxOf(finish, deps, w)
  {
    w := 0;
    for i := 0 to |deps|
      invariant 0 <= w && forall j | 0 <= j < i :: finish[deps[j]] <= w
      invariant w == 0 || exists j :: 0 <= j < i && finish[deps[j]] == w
    {
      if w < finish[deps[i]] { w := finish[deps[i]]; }
    }
  }

  lemma OrderListsAll(g: Graph, order: seq<int>, keys: set<int>)
    requires Topological(g, order) && keys == set j | 0 <= j < |order| :: order[j]
    ensures keys == g.node.Keys
  {
    forall n ensures n in keys <==> n in g.node {
      if n in g.node { var j :| 0 <= j < |order| && order[j] == n; }
    }
  }

  method FinishPass(g: Graph, order: seq<int>) returns (finish: map<int, int>)
    requires Valid(g) && Topological(g, order)
    ensures finish.Keys == g.node.Keys && FinishExact(g, finish)
  {
    finish := map[];
    for i := 0 to |order|
      invariant finish.Keys == set j | 0 <= j < i :: order[j]
      invariant FinishExact(g, finish)
    {
      var n := order[i];
      forall k | 0 <= k < |g.node[n].deps| ensures g.node[n].deps[k] in finish {
        DependencyEarlier(g, order, i, g.node[n].deps[k]);
      }
      var w := MaxOf(finish, g.node[n].deps);
      FinishStep(g, n, w, finish);
      finish := finish[n := w + Duration(g, n)];
    }
    OrderListsAll(g, order, finish.Keys);
  }

  /** The successor lists: `s` is listed under `d` as often as `d` is listed as its dependency. */
  method Successors(g: Graph) returns (succ: map<int, seq<int>>)
    requires Valid(g) && Closed(g)
    ensures succ.Keys == g.node.Keys && forall d, s | d in succ :: s in succ[d] <==> Depends(g, s, d)
  {
    succ := map n | n in g.node :: [];
    for i := 0 to |g.listing|
      invariant succ.Keys == g.node.Keys
      invariant forall d, s | d in succ :: s in succ[d] <==> s in g.listing[..i] && Depends(g, s, d)
    {
      var n := g.listing[i];
      var deps := g.node[n].deps;
      for k := 0 to |deps|
        invariant succ.Keys == g.node.Keys
        invariant forall d, s | d in succ :: s in succ[d] <==>
            (s in g.listing[..i] && Depends(g, s, d)) || (s == n && d in deps[..k])
      {
        assert Depends(g, n, deps[k]);
        assert deps[..k + 1] == deps[..k] + [deps[k]];
        succ := succ[deps[k] := succ[deps[k]] + [n]];
      }
      assert deps[..|deps|] == deps && g.listing[..i + 1] == g.listing[..i] + [n];
    }
    assert g.listing[..|g.listing|] == g.listing;
  }

  /** `min([latest[s] - duration[s] for s in succ] + [terminal])`. */
  method MinOf(g: Graph, terminal: int, latest: map<int, int>, succ: seq<int>) returns (w: int)
    requires AllIn(succ, latest) && forall i | 0 <= i < |succ| :: succ[i] in g.node
    ensures w <= terminal && forall i | 0 <= i < |succ| :: w <= latest[succ[i]] - Duration(g, succ[i])
    ensures w == terminal || exists i :: 0 <= i < |succ| && w == latest[succ[i]] - Duration(g, succ[i])
  {
    w := terminal;
    for i := 0 to |succ|
      invariant w <= terminal && forall j | 0 <= j < i :: w <= latest[succ[j]] - Duration(g, succ[j])
      invariant w == terminal || exists j :: 0 <= j < i && w == latest[succ[j]] - Duration(g, succ[j])
    {
      var bound := latest[succ[i]] - Duration(g, succ[i]);
      if bound < w { w := bound; }
    }
  }

  /** Each `latest` entry leaves room for exactly the heaviest chain out of its node. */
  ghost predicate TailsExact(g: Graph, terminal: int, latest: map<int, int>) {
    forall n {:trigger latest[n]} | n in latest ::
        n in g.node && HeaviestFrom(g, n, terminal - latest[n] + Duration(g, n))
  }

  /** The weight that each `latest` entry leaves room for. */
  ghost function Tails(g: Graph, terminal: int, latest: map<int, int>): (tail: map<int, int>)
    requires forall m | m in latest :: m in g.node
    ensures tail.Keys == latest.Keys && forall m | m in latest :: tail[m] == terminal - latest[m] + Duration(g, m)
  {
    map m | m in latest :: terminal - latest[m] + Duration(g, m)
  }

  lemma TailsMax(g: Graph, terminal: int, latest: map<int, int>, succ: seq<int>, w: int)
    requires AllIn(succ, latest) && forall m | m in latest :: m in g.node
    requires w <= terminal && forall i | 0 <= i < |succ| :: w <= latest[succ[i]] - Duration(g, succ[i])
    requires w == terminal || exists i :: 0 <= i < |succ| && w == latest[succ[i]] - Duration(g, succ[i])
    ensures AllIn(succ, Tails(g, terminal, latest)) && IsMaxOf(Tails(g, terminal, latest), succ, terminal - w)
  {
  }

  lemma TailsStep(g: Graph, terminal: int, latest: map<int, int>, n: int, succ: seq<int>, w: int)
    requires TailsExact(g, terminal, latest) && n in g.node
    requires AllIn(succ, latest) && (forall s :: s in succ <==> Depends(g, s, n))
    requires w <= terminal && forall i | 0 <= i < |succ| :: w <= latest[succ[i]] - Duration(g, succ[i])
    requires w == terminal || exists i :: 0 <= i < |succ| && w == latest[succ[i]] - Duration(g, succ[i])
    ensures TailsExact(g, terminal, latest[n := w])
  {
    var tail := Tails(g, terminal, latest);
    TailsMax(g, terminal, latest, succ, w);
    TailsHeaviest(g, terminal, latest);
    LatestStep(g, n, terminal - w, succ, tail);
    TailsUpdate(g, terminal, latest, n, w);
  }

  lemma TailsHeaviest(g: Graph, terminal: int, latest: map<int, int>)
    requires TailsExact(g, terminal, latest)
    ensures forall m {:trigger Tails(g, terminal, latest)[m]} | m in latest ::
      HeaviestFrom(g, m, Tails(g, terminal, latest)[m])
  {
  }

  lemma TailsUpdate(g: Graph, terminal: int, latest: map<int, int>, n: int, w: int)
    requires TailsExact(g, terminal, latest) && n in g.node && HeaviestFrom(g, n, terminal - w + Duration(g, n))
    ensures TailsExact(g, terminal, latest[n := w])
  {
  }

  method LatestPass(g: Graph, order: seq<int>, terminal: int) returns (latest: map<int, int>)
    requires Valid(g) && Topological(g, order)
    ensures latest.Keys == g.node.Keys && TailsExact(g, terminal, latest)
  {
    OrderExcludesObstacles(g, order, Ordered(order));
    var succ := Successors(g);
    latest := map[];
    for i := |order| downto 0
      invariant latest.Keys == set j | i <= j < |order| :: order[j]
      invariant TailsExact(g, terminal, latest)
    {
      var n := order[i];
      forall k | 0 <= k < |succ[n]| ensures succ[n][k] in latest {
        assert succ[n][k] in succ[n];
        SuccessorLater(g, order, i, succ[n][k]);
      }
      var w := MinOf(g, terminal, latest, succ[n]);
      TailsStep(g, terminal, latest, n, succ[n], w);
      latest := latest[n := w];
    }
    OrderListsAll(g, order, latest.Keys);
  }

  lemma SuccessorLater(g: Graph, order: seq<int>, i: nat, s: int)
    requires Topological(g, order) && i < |order| && Depends(g, s, order[i])
    ensures exists j :: i < j < |order| && order[j] == s
  {
    var j :| 0 <= j < |order| && order[j] == s;
    DependencyEarlier(g, order, j, order[i]);
  }

  /** `max(finish.values())`. */
  method Latest(order: seq<int>, finish: map<int, int>) returns (terminal: int)
    requires order != [] && AllIn(order, finish)
    ensures exists i :: 0 <= i < |order| && finish[order[i]] == terminal
    ensures forall i | 0 <= i < |order| :: finish[order[i]] <= terminal
  {
    terminal := finish[order[0]];
    for i := 1 to |order|
      invariant exists j :: 0 <= j < i && finish[order[j]] == terminal
      invariant forall j | 0 <= j < i :: finish[order[j]] <= terminal
    {
      if terminal < finish[order[i]] { terminal := finish[order[i]]; }
    }
  }

  /** The whole pass. The empty graph has no latest finish: there the source's `max` raises. */
  method Pass(g: Graph, order: seq<int>) returns (terminal: int, finish: map<int, int>, latest: map<int, int>)
    requires Valid(g) && Topological(g, order) && order != []
    ensures ExactSlack(g, terminal, finish, latest)
  {
    finish := FinishPass(g, order);
    terminal := Latest(order, finish) by { assert forall i | 0 <= i < |order| :: order[i] in order; }
    latest := LatestPass(g, order, terminal);
    PassIsExact(g, order, terminal, finish, latest);
  }

  lemma FinishAt(g: Graph, finish: map<int, int>, n: int)
    requires FinishExact(g, finish) && n in finish
    ensures n in g.node && HeaviestTo(g, n, finish[n])
  {
  }

  lemma LatestAt(g: Graph, terminal: int, latest: map<int, int>, n: int)
    requires TailsExact(g, terminal, latest) && n in latest
    ensures n in g.node && HeaviestFrom(g, n, terminal - latest[n] + Duration(g, n))
  {
  }

  lemma SlackAt(g: Graph, terminal: int, finish: map<int, int>, latest: map<int, int>, n: int)
    requires FinishExact(g, finish) && TailsExact(g, terminal, latest) && n in finish && n in latest
    ensures HeaviestThrough(g, n, terminal - (latest[n] - finish[n]))
  {
    FinishAt(g, finish, n);
    LatestAt(g, terminal, latest, n);
    ThroughIsToPlusFrom(g, n, finish[n], terminal - latest[n] + Duration(g, n), terminal - (latest[n] - finish[n]));
  }

  lemma PassIsExact(g: Graph, order: seq<int>, terminal: int, finish: map<int, int>, latest: map<int, int>)
    requires Topological(g, order) && finish.Keys == g.node.Keys && latest.Keys == g.node.Keys
    requires FinishExact(g, finish)
    requires TailsExact(g, terminal, latest) && AllIn(order, finish)
    requires exists i :: 0 <= i < |order| && finish[order[i]] == terminal
    requires forall i | 0 <= i < |order| :: finish[order[i]] <= terminal
    ensures ExactSlack(g, terminal, finish, latest)
  {
    TerminalIsHeaviest(g, order, finish, terminal);
    forall n | n in g.node ensures HeaviestThrough(g, n, terminal - (latest[n] - finish[n])) {
      SlackAt(g, terminal, finish, latest, n);
    }
  }

  lemma TerminalIsHeaviest(g: Graph, order: seq<int>, finish: map<int, int>, terminal: int)
    requires Topological(g, order) && finish.Keys == g.node.Keys && AllIn(order, finish)
    requires FinishExact(g, finish)
    requires exists i :: 0 <= i < |order| && finish[order[i]] == terminal
    requires forall i | 0 <= i < |order| :: finish[order[i]] <= terminal
    ensures Heaviest(g, terminal)
  {
    var i :| 0 <= i < |order| && finish[order[i]] == terminal;
    var p :| ChainTo(g, p, order[i]) && Weight(g, p) == terminal;
    forall q | Chain(g, q) ensures Weight(g, q) <= terminal {
      assert ChainTo(g, q, q[|q| - 1]) && q[|q| - 1] in order;
    }
  }

  // ---- The dependency-only forecast bounds the calendar forecast from below ----

  lemma {:induction false} SumAtMost(s: seq<nat>)
    requires forall i | 0 <= i < |s| :: s[i] <= 16
    ensures Sum(s) <= 16 * |s|
  {
    if s != [] { SumAtMost(s[1..]); }
  }

  /** A slot is long enough for three times its effort at eight hours a day. */
  lemma SlotLongEnough(g: Graph, log: Log, k: nat)
    requires Run(g, log) && k < |log|
    ensures log[k].node in g.node && log[k].start <= log[k].end
    ensures Duration(g, log[k].node) <= 16 * (log[k].end - log[k].start + 1)
  {
    var s := log[k];
    DecisionAt(g, log, k);
    DrawsAt(g, log, k, 0);
    forall i | 0 <= i < |s.draws| ensures s.draws[i] <= 16 { DrawsAt(g, log, k, i); }
    SumAtMost(s.draws);
  }

  ghost predicate DoneBelowDone(g: Graph) {
    forall n, d | Depends(g, n, d) && g.node[n].done :: d in g.node && g.node[d].done
  }

  /** No dependency chain outweighs the days up to the end of its last node. */
  lemma {:induction false} ChainFitsCalendar(g: Graph, log: Log, p: seq<int>)
    requires Run(g, log) && Complete(g, log) && DoneBelowDone(g) && Valid(g)
    requires Chain(g, p)
    ensures p[|p| - 1] in Ends(g, log) && Weight(g, p) <= 16 * (Ends(g, log)[p[|p| - 1]] + 1)
    ensures g.node[p[|p| - 1]].done ==> Weight(g, p) == 0
  {
    var n, shorter := p[|p| - 1], p[..|p| - 1];
    var k := EndsOrigin(g, log, n);
    if |p| > 1 {
      assert Depends(g, n, p[|p| - 2]);
      ChainFitsCalendar(g, log, shorter);
    }
    if !g.node[n].done {
      SlotLongEnough(g, log, k);
      if |p| > 1 { DependenciesFirst(g, log, k, p[|p| - 2]); }
    }
  }

  /** The dependency-only forecast is at most eight hours for each day up to the last forecast end. */
  lemma DependencyOnlyLowerBound(g: Graph, log: Log, terminal: int, finish: map<int, int>, latest: map<int, int>,
      days: nat)
    requires Run(g, log) && Complete(g, log) && DoneBelowDone(g) && Valid(g)
    requires forall k | 0 <= k < |log| :: log[k].end < days
    ensures ExactSlack(g, terminal, finish, latest) ==> terminal <= 16 * days
  {
    if ExactSlack(g, terminal, finish, latest) {
      var p :| Chain(g, p) && Weight(g, p) == terminal;
      ChainFitsCalendar(g, log, p);
      var k := EndsOrigin(g, log, p[|p| - 1]);
    }
  }
}
