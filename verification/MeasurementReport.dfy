/** The report on a finished measurement, and the measurement as it runs. */
module MeasurementReport {
  import opened Numbers
  import opened MeasurementPool

  // ---- Percentiles by nearest rank ----

  function Insert(x: real, s: seq<real>): seq<real> {
    if s == [] || x <= s[0] then [x] + s else [s[0]] + Insert(x, s[1..])
  }

  /** The latencies in ascending order. */
  function Ascending(s: seq<real>): seq<real> {
    if s == [] then [] else Insert(s[0], Ascending(s[1..]))
  }

  predicate Sorted(s: seq<real>) {
    forall i, j | 0 <= i < j < |s| :: s[i] <= s[j]
  }

  function AtMost(s: seq<real>, v: real): nat {
    if s == [] then 0 else (if s[0] <= v then 1 else 0) + AtMost(s[1..], v)
  }

  function AtLeast(s: seq<real>, v: real): nat {
    if s == [] then 0 else (if s[0] >= v then 1 else 0) + AtLeast(s[1..], v)
  }

  lemma {:induction false} InsertKeeps(x: real, s: seq<real>, v: real)
    ensures multiset(Insert(x, s)) == multiset{x} + multiset(s) && |Insert(x, s)| == |s| + 1
    ensures AtMost(Insert(x, s), v) == (if x <= v then 1 else 0) + AtMost(s, v)
    ensures AtLeast(Insert(x, s), v) == (if x >= v then 1 else 0) + AtLeast(s, v)
  {
    if s != [] && x > s[0] {
      InsertKeeps(x, s[1..], v);
      assert s == [s[0]] + s[1..];
    }
  }

  lemma {:induction false} InsertSorted(x: real, s: seq<real>)
    requires Sorted(s)
    ensures Sorted(Insert(x, s))
  {
    if s != [] && x > s[0] {
      var t := Insert(x, s[1..]);
      InsertSorted(x, s[1..]);
      forall k | 0 <= k < |t| ensures s[0] <= t[k] { Inserted(x, s[1..], k); }
    }
  }

  lemma {:induction false} Inserted(x: real, s: seq<real>, k: nat)
    requires k < |Insert(x, s)|
    ensures Insert(x, s)[k] == x || Insert(x, s)[k] in s
  {
    if s != [] && x > s[0] && k > 0 { Inserted(x, s[1..], k - 1); }
  }

  lemma {:induction false} AscendingSorts(s: seq<real>, v: real)
    ensures Sorted(Ascending(s)) && multiset(Ascending(s)) == multiset(s) && |Ascending(s)| == |s|
    ensures AtMost(Ascending(s), v) == AtMost(s, v) && AtLeast(Ascending(s), v) == AtLeast(s, v)
  {
    if s != [] {
      AscendingSorts(s[1..], v);
      InsertKeeps(s[0], Ascending(s[1..]), v);
      InsertSorted(s[0], Ascending(s[1..]));
      assert s == [s[0]] + s[1..];
    }
  }

  lemma {:induction false} CountSplit(s: seq<real>, i: nat, v: real)
    requires i <= |s|
    ensures AtMost(s, v) == AtMost(s[..i], v) + AtMost(s[i..], v)
    ensures AtLeast(s, v) == AtLeast(s[..i], v) + AtLeast(s[i..], v)
  {
    if i == 0 {
      assert s[..0] == [] && s[0..] == s;
    } else {
      CountSplit(s[1..], i - 1, v);
      assert s[..i][1..] == s[1..][..i - 1] && s[i..] == s[1..][i - 1..];
    }
  }

  lemma {:induction false} CountAll(s: seq<real>, v: real)
    ensures (forall k | 0 <= k < |s| :: s[k] <= v) ==> AtMost(s, v) == |s|
    ensures (forall k | 0 <= k < |s| :: s[k] >= v) ==> AtLeast(s, v) == |s|
  {
    if s != [] { CountAll(s[1..], v); }
  }

  /** A fraction p = num / den with 0 < p <= 1. */
  datatype Fraction = Fraction(num: nat, den: nat)

  predicate Proper(f: Fraction) {
    0 < f.num <= f.den
  }

  function Ceiling(n: nat, f: Fraction): nat
    requires Proper(f)
  {
    (n * f.num + f.den - 1) / f.den
  }

  /** The nearest rank: the least number of samples that is at least the fraction of them. */
  lemma CeilingIsLeast(n: nat, f: Fraction)
    requires Proper(f) && n > 0
    ensures var r := Ceiling(n, f);
      0 < r <= n && r * f.den >= n * f.num && (r - 1) * f.den < n * f.num
  {
    var total := n * f.num;
    Larger(f.num, 1, n);
    Larger(f.den, f.num, n);
    QuotientBounds(total, n, f.den);
  }

  /** The quotient of `total` by `d`, rounded up. */
  lemma QuotientBounds(total: nat, n: nat, d: nat)
    requires d > 0 && 0 < total <= d * n
    ensures var r := (total + d - 1) / d; 0 < r <= n && r * d >= total && (r - 1) * d < total
  {
    var r := (total + d - 1) / d;
    Quotient(total + d - 1, d);
    Before(r, d);
    if r > n { Larger(r, n + 1, d); }
    if r <= 0 { Larger(0, r, d); }
  }

  lemma Before(r: int, d: nat)
    ensures (r - 1) * d == r * d - d
  {
  }

  lemma Quotient(a: nat, d: nat)
    requires d > 0
    ensures (a / d) * d <= a < (a / d) * d + d
  {
  }

  lemma Larger(a: int, b: int, d: nat)
    requires a >= b
    ensures a * d >= b * d
  {
  }

  function Percentile(ordered: seq<real>, f: Fraction): real
    requires Proper(f) && ordered != []
  {
    CeilingIsLeast(|ordered|, f);
    ordered[Ceiling(|ordered|, f) - 1]
  }

  /** In ascending order, the k-th has k + 1 at or below it and |s| - k at or above it. */
  lemma RankInOrder(s: seq<real>, k: nat)
    requires Sorted(s) && k < |s|
    ensures AtMost(s, s[k]) >= k + 1 && AtLeast(s, s[k]) >= |s| - k
  {
    CountSplit(s, k + 1, s[k]);
    CountAll(s[..k + 1], s[k]);
    CountSplit(s, k, s[k]);
    CountAll(s[k..], s[k]);
  }

  /** At least ceil(p * n) latencies are at or below the percentile and n - ceil(p * n) + 1 at or above it. */
  lemma NearestRank(latencies: seq<real>, f: Fraction)
    requires Proper(f) && latencies != []
    ensures Ascending(latencies) != []
    ensures var v := Percentile(Ascending(latencies), f); var n := |latencies|;
      v in latencies && AtMost(latencies, v) >= Ceiling(n, f) && AtLeast(latencies, v) >= n - Ceiling(n, f) + 1
  {
    AscendingSorts(latencies, 0.0);
    CeilingIsLeast(|latencies|, f);
    RankOfMember(latencies, Ceiling(|latencies|, f) - 1);
  }

  /** So has the k-th of the latencies, among the latencies. */
  lemma RankOfMember(latencies: seq<real>, k: nat)
    requires k < |latencies|
    ensures |Ascending(latencies)| == |latencies|
    ensures var v := Ascending(latencies)[k];
      v in latencies && AtMost(latencies, v) >= k + 1 && AtLeast(latencies, v) >= |latencies| - k
  {
    AscendingSorts(latencies, 0.0);
    var v := Ascending(latencies)[k];
    AscendingSorts(latencies, v);
    RankInOrder(Ascending(latencies), k);
    SameMembers(Ascending(latencies), latencies, v);
  }

  lemma SameMembers(s: seq<real>, t: seq<real>, x: real)
    requires multiset(s) == multiset(t) && x in s
    ensures x in t
  {
    assert x in multiset(t);
  }

  lemma SortedBounds(s: seq<real>, x: real)
    requires Sorted(s) && x in s
    ensures s[0] <= x <= s[|s| - 1]
  {
    var i :| 0 <= i < |s| && s[i] == x;
  }

  /** The first and the last in ascending order are latencies and bound all of them. */
  lemma Extremes(latencies: seq<real>)
    requires latencies != []
    ensures |Ascending(latencies)| == |latencies|
    ensures Ascending(latencies)[0] in latencies && Ascending(latencies)[|latencies| - 1] in latencies
    ensures forall k | 0 <= k < |latencies| ::
        Ascending(latencies)[0] <= latencies[k] <= Ascending(latencies)[|latencies| - 1]
  {
    var s := Ascending(latencies);
    AscendingSorts(latencies, 0.0);
    SameMembers(s, latencies, s[0]);
    SameMembers(s, latencies, s[|s| - 1]);
    forall k | 0 <= k < |latencies| ensures s[0] <= latencies[k] <= s[|s| - 1] {
      SameMembers(latencies, s, latencies[k]);
      SortedBounds(s, latencies[k]);
    }
  }

  // ---- The report ----

  function Latencies(results: seq<Sample>): (r: seq<real>)
    ensures |r| == |results| && forall i | 0 <= i < |r| :: r[i] == results[i].latency
  {
    seq(|results|, i requires 0 <= i < |results| => results[i].latency)
  }

  function Expected(results: seq<Sample>): nat {
    if results == [] then 0 else (if results[0].matched then 1 else 0) + Expected(results[1..])
  }

  function Unexpected(results: seq<Sample>): nat {
    if results == [] then 0
    else (if !results[0].matched && !results[0].transportFailure then 1 else 0) + Unexpected(results[1..])
  }

  function TransportFailures(results: seq<Sample>): nat {
    if results == [] then 0 else (if results[0].transportFailure then 1 else 0) + TransportFailures(results[1..])
  }

  lemma {:induction false} OutcomesAddUp(results: seq<Sample>)
    requires forall k | 0 <= k < |results| :: !(results[k].matched && results[k].transportFailure)
    ensures Expected(results) + Unexpected(results) + TransportFailures(results) == |results|
  {
    if results != [] {
      assert !(results[0].matched && results[0].transportFailure);
      OutcomesAddUp(results[1..]);
    }
  }

  datatype Report = Invalid | Report(elapsed: real, expected: nat, unexpected: nat, failures: nat, min: real,
      p50: real, p95: real, p99: real, max: real)

  /** What is reported once all workers have settled. */
  function Summary(p: Pool, started: real, clock: Number): Report
    requires Clean(p) ==> p.results != []
  {
    var ordered := Ascending(Latencies(p.results));
    AscendingSorts(Latencies(p.results), 0.0);
    if !Clean(p) || !Elapsed(started, clock) then Invalid
    else Report(clock.value - started, Expected(p.results), Unexpected(p.results), TransportFailures(p.results),
                ordered[0], Percentile(ordered, Fraction(1, 2)), Percentile(ordered, Fraction(19, 20)),
                Percentile(ordered, Fraction(99, 100)), ordered[|ordered| - 1])
  }

  /** `v` is a nearest-rank percentile of the recorded latencies. */
  predicate IsPercentile(results: seq<Sample>, v: real, f: Fraction)
    requires Proper(f)
  {
    var latencies, n := Latencies(results), |results|;
    v in latencies && AtMost(latencies, v) >= Ceiling(n, f) && AtLeast(latencies, v) >= n - Ceiling(n, f) + 1
  }

  lemma PercentileIsSound(results: seq<Sample>, f: Fraction)
    requires Proper(f) && results != []
    ensures Ascending(Latencies(results)) != []
    ensures IsPercentile(results, Percentile(Ascending(Latencies(results)), f), f)
  {
    NearestRank(Latencies(results), f);
  }

  /** The reported extremes are latencies, and no latency is beyond them. */
  predicate AreExtremes(results: seq<Sample>, min: real, max: real) {
    && min in Latencies(results) && max in Latencies(results)
    && forall k | 0 <= k < |results| :: min <= results[k].latency <= max
  }

  lemma SummaryIsSound(p: Pool, started: real, clock: Number)
    requires p.results != [] && Balanced(p) && Clean(p) && Elapsed(started, clock)
    ensures var r := Summary(p, started, clock);
      && r.Report? && r.elapsed >= 0.0 && r.min >= 0.0 && r.expected + r.unexpected + r.failures == |p.results|
      && AreExtremes(p.results, r.min, r.max)
      && IsPercentile(p.results, r.p50, Fraction(1, 2)) && IsPercentile(p.results, r.p95, Fraction(19, 20))
      && IsPercentile(p.results, r.p99, Fraction(99, 100))
  {
    OutcomesAddUp(p.results);
    PercentileIsSound(p.results, Fraction(1, 2));
    PercentileIsSound(p.results, Fraction(19, 20));
    PercentileIsSound(p.results, Fraction(99, 100));
    Extremes(Latencies(p.results));
  }

  /** A report on a measurement under any interleaving: it is given exactly if every clock reading was good,
      and then the three outcomes add up to the samples asked for, no latency is negative or beyond the
      extremes, and the percentiles are nearest-rank percentiles. */
  lemma ReportIsSound(samples: nat, concurrency: nat, expectedStatus: int, events: seq<Event>, started: real,
      clock: Number)
    requires Scheduled(NewPool(samples, concurrency), expectedStatus, events) && 0 < concurrency <= samples
    requires Settled(Run(NewPool(samples, concurrency), expectedStatus, events))
    ensures var p := Run(NewPool(samples, concurrency), expectedStatus, events);
      && (Clean(p) ==> p.results != [])
      && var r := Summary(p, started, clock);
      && (r.Report? <==> Clean(p) && Elapsed(started, clock))
      && (r.Report? ==>
        && r.elapsed >= 0.0 && r.min >= 0.0 && p.calls == samples && r.expected + r.unexpected + r.failures == samples
        && AreExtremes(p.results, r.min, r.max)
        && IsPercentile(p.results, r.p50, Fraction(1, 2)) && IsPercentile(p.results, r.p95, Fraction(19, 20))
        && IsPercentile(p.results, r.p99, Fraction(99, 100)))
  {
    var p := Run(NewPool(samples, concurrency), expectedStatus, events);
    RunBalanced(samples, concurrency, expectedStatus, events);
    SettledIsComplete(samples, concurrency, expectedStatus, events);
    if Clean(p) && Elapsed(started, clock) { SummaryIsSound(p, started, clock); }
  }

  // ---- The measurement as it runs ----

  /** `calls` and `ended` count operations begun and finished. */
  class Measurement {
    const samples: nat
    const expectedStatus: int
    const start: real
    var cursor: nat
    var stopped: bool
    var results: seq<Sample>
    var workers: seq<Worker>
    ghost var calls: nat
    ghost var ended: nat

    ghost function Now(): Pool
      reads this
    {
      Pool(samples, cursor, stopped, results, workers, calls, ended)
    }

    constructor (samples: nat, concurrency: nat, expectedStatus: int, start: real)
      ensures Now() == NewPool(samples, concurrency)
      ensures this.expectedStatus == expectedStatus && this.start == start
    {
      this.samples, this.expectedStatus, this.start := samples, expectedStatus, start;
      cursor, stopped, results, workers, calls, ended := 0, false, [], seq(concurrency, _ => Head), 0, 0;
    }

    /** Bad bounds, or a bad first clock reading, are refused before any operation is begun. */
    static method Create(samples: Number, concurrency: Number, expectedStatus: Number, clock: Number)
        returns (m: Measurement?)
      ensures m != null <==> GoodBounds(samples, concurrency, expectedStatus) && clock.Finite?
      ensures m != null ==> fresh(m) && m.start == clock.value
      ensures m != null ==> m.Now() == NewPool(samples.value.Floor, concurrency.value.Floor)
    {
      if !GoodBounds(samples, concurrency, expectedStatus) || clock.NotFinite? { return null; }
      m := new Measurement(samples.value.Floor, concurrency.value.Floor, expectedStatus.value.Floor, clock.value);
    }

    /** A worker from the head of its loop to its operation, or to its end. */
    method Advance(i: nat, clock: Number)
      requires i < |workers|
      modifies this
      ensures Now() == Begin(old(Now()), i, clock)
    {
      if stopped || cursor >= samples {
        workers := workers[i := Done];
        return;
      }
      cursor := cursor + 1;
      if clock.NotFinite? {
        stopped := true;
        workers := workers[i := Rejected];
        return;
      }
      calls := calls + 1;
      workers := workers[i := Awaiting(clock.value)];
    }

    /** A worker from the end of its operation back to the head of its loop. */
    method Record(i: nat, response: Response, clock: Number)
      requires i < |workers| && workers[i].Awaiting?
      modifies this
      ensures Now() == Return(old(Now()), i, expectedStatus, response, clock)
    {
      var began := workers[i].began;
      var matched, transportFailure := false, false;
      ended := ended + 1;
      match response {
        case Responded(status) => matched := status == expectedStatus;
        case Failed => transportFailure := true;
      }
      if clock.NotFinite? || clock.value - began < 0.0 {
        stopped := true;
        workers := workers[i := Rejected];
        return;
      }
      results := results + [Sample(clock.value - began, matched, transportFailure)];
      workers := workers[i := Head];
    }
  }
}
