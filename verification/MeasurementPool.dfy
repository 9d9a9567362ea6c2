/** The measurement pool: workers that take turns on one thread and share a cursor. */
module MeasurementPool {
  import opened Numbers

  datatype Response = Responded(status: int) | Failed

  datatype Sample = Sample(latency: real, matched: bool, transportFailure: bool)

  /** A worker is at the head of its loop, waits for an operation it began, or has settled. */
  datatype Worker = Head | Awaiting(began: real) | Done | Rejected

  /** `calls` and `ended` count the operations begun and finished. */
  datatype Pool = Pool(samples: nat, cursor: nat, stopped: bool, results: seq<Sample>, workers: seq<Worker>,
      calls: nat, ended: nat)

  predicate GoodBounds(samples: Number, concurrency: Number, expectedStatus: Number) {
    Whole(samples, 1, 1000) && Whole(concurrency, 1, 8) && concurrency.value <= samples.value &&
        Whole(expectedStatus, 100, 599)
  }

  function NewPool(samples: nat, concurrency: nat): Pool {
    Pool(samples, 0, false, [], seq(concurrency, _ => Head), 0, 0)
  }

  /** A worker comes to the head of its loop; if it goes on it reads the clock and begins an operation. */
  function Begin(p: Pool, i: nat, clock: Number): Pool
    requires i < |p.workers|
  {
    var on := !p.stopped && p.cursor < p.samples;
    p.(workers := p.workers[i := if !on then Done else if clock.Finite? then Awaiting(clock.value) else Rejected],
       cursor := if on then p.cursor + 1 else p.cursor,
       calls := if on && clock.Finite? then p.calls + 1 else p.calls,
       stopped := p.stopped || (on && clock.NotFinite?))
  }

  predicate Elapsed(began: real, clock: Number) {
    clock.Finite? && clock.value >= began
  }

  /** Its operation has returned or failed; the worker reads the clock and records a sample. */
  function Return(p: Pool, i: nat, expectedStatus: int, response: Response, clock: Number): Pool
    requires i < |p.workers| && p.workers[i].Awaiting?
  {
    var began := p.workers[i].began;
    var ok := Elapsed(began, clock);
    var matched := response == Responded(expectedStatus);
    p.(workers := p.workers[i := if ok then Head else Rejected],
       ended := p.ended + 1,
       results := if ok then p.results + [Sample(clock.value - began, matched, response.Failed?)] else p.results,
       stopped := p.stopped || !ok)
  }

  datatype Event = Begins(who: nat, clock: Number) | Returns(who: nat, response: Response, clock: Number)

  predicate Possible(p: Pool, e: Event) {
    e.who < |p.workers| && if e.Begins? then p.workers[e.who].Head? else p.workers[e.who].Awaiting?
  }

  function Step(p: Pool, expectedStatus: int, e: Event): Pool
    requires Possible(p, e)
  {
    match e
    case Begins(i, clock) => Begin(p, i, clock)
    case Returns(i, response, clock) => Return(p, i, expectedStatus, response, clock)
  }

  /** Every interleaving: any worker that can move may be the next. */
  predicate Scheduled(p: Pool, expectedStatus: int, events: seq<Event>)
    decreases |events|, 0
  {
    events == [] ||
    var front := events[..|events| - 1];
    Scheduled(p, expectedStatus, front) && Possible(Run(p, expectedStatus, front), events[|events| - 1])
  }

  function Run(p: Pool, expectedStatus: int, events: seq<Event>): Pool
    requires Scheduled(p, expectedStatus, events)
    decreases |events|, 1
  {
    if events == [] then p
    else Step(Run(p, expectedStatus, events[..|events| - 1]), expectedStatus, events[|events| - 1])
  }

  predicate Settled(p: Pool) {
    forall i | 0 <= i < |p.workers| :: p.workers[i].Done? || p.workers[i].Rejected?
  }

  predicate Clean(p: Pool) {
    forall i | 0 <= i < |p.workers| :: !p.workers[i].Rejected?
  }

  function Waiting(workers: seq<Worker>): nat {
    if workers == [] then 0 else Waiting(workers[..|workers| - 1]) + if workers[|workers| - 1].Awaiting? then 1 else 0
  }

  function Weight(w: Worker): nat {
    if w.Awaiting? then 2 else if w.Head? then 1 else 0
  }

  function Weights(workers: seq<Worker>): nat {
    if workers == [] then 0 else Weights(workers[..|workers| - 1]) + Weight(workers[|workers| - 1])
  }

  lemma {:induction false} WaitingUpdate(workers: seq<Worker>, i: nat, w: Worker)
    requires i < |workers|
    ensures Waiting(workers[i := w]) + (if workers[i].Awaiting? then 1 else 0)
            == Waiting(workers) + (if w.Awaiting? then 1 else 0)
    ensures Weights(workers[i := w]) + Weight(workers[i]) == Weights(workers) + Weight(w)
  {
    var front := workers[..|workers| - 1];
    if i < |workers| - 1 {
      assert workers[i := w][..|workers| - 1] == front[i := w];
      WaitingUpdate(front, i, w);
    } else {
      assert workers[i := w][..|workers| - 1] == front;
    }
  }

  lemma {:induction false} WaitingAtMost(workers: seq<Worker>)
    ensures Waiting(workers) <= |workers|
    ensures (forall i | 0 <= i < |workers| :: !workers[i].Awaiting?) ==> Waiting(workers) == 0
    ensures (forall i | 0 <= i < |workers| :: workers[i] == Head) ==> Weights(workers) == |workers|
  {
    if workers != [] { WaitingAtMost(workers[..|workers| - 1]); }
  }

  /** Every operation begun has ended or is under way, and the samples are good. As long as the pool has not
      stopped, every turn of the cursor began an operation and every operation that ended left a sample; it
      stops exactly at the first bad reading, after which either may be missing. */
  predicate Balanced(p: Pool) {
    && p.calls <= p.cursor <= p.samples
    && p.calls == p.ended + Waiting(p.workers)
    && |p.results| <= p.ended
    && (p.stopped <==> !Clean(p))
    && (!p.stopped ==> p.calls == p.cursor && |p.results| == p.ended)
    && (!p.stopped ==> forall i | 0 <= i < |p.workers| && p.workers[i].Done? :: p.cursor == p.samples)
    && (forall k | 0 <= k < |p.results| ::
        p.results[k].latency >= 0.0 && !(p.results[k].matched && p.results[k].transportFailure))
  }

  lemma StepBalanced(p: Pool, expectedStatus: int, e: Event)
    requires Possible(p, e) && Balanced(p)
    ensures Balanced(Step(p, expectedStatus, e)) && Step(p, expectedStatus, e).samples == p.samples
    ensures |Step(p, expectedStatus, e).workers| == |p.workers|
  {
    var q := Step(p, expectedStatus, e);
    WaitingUpdate(p.workers, e.who, q.workers[e.who]);
    if !Clean(p) {
      var i :| 0 <= i < |p.workers| && p.workers[i].Rejected?;
      assert q.workers[i].Rejected?;
    }
  }

  lemma {:induction false} RunBalanced(samples: nat, concurrency: nat, expectedStatus: int, events: seq<Event>)
    requires Scheduled(NewPool(samples, concurrency), expectedStatus, events)
    ensures var p := Run(NewPool(samples, concurrency), expectedStatus, events);
      Balanced(p) && p.samples == samples && |p.workers| == concurrency
    decreases |events|
  {
    if events == [] {
      WaitingAtMost(NewPool(samples, concurrency).workers);
    } else {
      var front := events[..|events| - 1];
      RunBalanced(samples, concurrency, expectedStatus, front);
      StepBalanced(Run(NewPool(samples, concurrency), expectedStatus, front), expectedStatus, events[|events| - 1]);
    }
  }

  /** At no time are more than `concurrency` operations under way, and never more than `samples` begun. */
  lemma NeverTooMany(samples: nat, concurrency: nat, expectedStatus: int, events: seq<Event>)
    requires Scheduled(NewPool(samples, concurrency), expectedStatus, events)
    ensures var p := Run(NewPool(samples, concurrency), expectedStatus, events);
      p.calls <= samples && 0 <= p.calls - p.ended <= concurrency
  {
    RunBalanced(samples, concurrency, expectedStatus, events);
    WaitingAtMost(Run(NewPool(samples, concurrency), expectedStatus, events).workers);
  }

  /** When all workers have settled every operation has returned, and if none was rejected exactly
      `samples` operations were run and recorded. */
  lemma SettledIsComplete(samples: nat, concurrency: nat, expectedStatus: int, events: seq<Event>)
    requires Scheduled(NewPool(samples, concurrency), expectedStatus, events) && concurrency > 0
    requires Settled(Run(NewPool(samples, concurrency), expectedStatus, events))
    ensures var p := Run(NewPool(samples, concurrency), expectedStatus, events);
      p.calls == p.ended && (Clean(p) ==> p.calls == samples == |p.results|)
  {
    var p := Run(NewPool(samples, concurrency), expectedStatus, events);
    RunBalanced(samples, concurrency, expectedStatus, events);
    WaitingAtMost(p.workers);
    if Clean(p) { assert p.workers[0].Done?; }
  }

  /** After a bad clock reading no operation is begun. */
  lemma StoppedBeginsNothing(p: Pool, expectedStatus: int, e: Event)
    requires Possible(p, e) && p.stopped
    ensures Step(p, expectedStatus, e).stopped && Step(p, expectedStatus, e).calls == p.calls
  {
  }

  function Effort(p: Pool): int {
    2 * (p.samples - p.cursor) + Weights(p.workers)
  }

  /** As long as not all workers have settled, one of them can move. */
  lemma SettledExactly(p: Pool)
    ensures Settled(p) <==> forall e :: !Possible(p, e)
  {
    if !Settled(p) {
      var i :| 0 <= i < |p.workers| && !p.workers[i].Done? && !p.workers[i].Rejected?;
      assert Possible(p, if p.workers[i].Head? then Begins(i, NotFinite) else Returns(i, Failed, NotFinite));
    }
  }

  /** Each step uses up some of the effort left, so every run ends, after at most 2 * samples + concurrency
      steps; when no step is possible any more all workers have settled. */
  lemma {:induction false} RunsEnd(samples: nat, concurrency: nat, expectedStatus: int, events: seq<Event>)
    requires Scheduled(NewPool(samples, concurrency), expectedStatus, events)
    ensures |events| + Effort(Run(NewPool(samples, concurrency), expectedStatus, events)) <= 2 * samples + concurrency
    ensures |events| <= 2 * samples + concurrency
    decreases |events|
  {
    RunBalanced(samples, concurrency, expectedStatus, events);
    if events == [] {
      WaitingAtMost(NewPool(samples, concurrency).workers);
    } else {
      var front, e := events[..|events| - 1], events[|events| - 1];
      RunsEnd(samples, concurrency, expectedStatus, front);
      var p := Run(NewPool(samples, concurrency), expectedStatus, front);
      RunBalanced(samples, concurrency, expectedStatus, front);
      WaitingUpdate(p.workers, e.who, Step(p, expectedStatus, e).workers[e.who]);
    }
  }

  lemma ScheduledOn(p: Pool, expectedStatus: int, events: seq<Event>, e: Event)
    requires Scheduled(p, expectedStatus, events) && Possible(Run(p, expectedStatus, events), e)
    ensures Scheduled(p, expectedStatus, events + [e])
  {
    assert (events + [e])[..|events|] == events;
  }

  /** Every run, whatever has happened so far, can be carried on to where all workers have settled. */
  lemma RunsSettle(samples: nat, concurrency: nat, expectedStatus: int, events: seq<Event>) returns (whole: seq<Event>)
    requires Scheduled(NewPool(samples, concurrency), expectedStatus, events)
    ensures events <= whole && Scheduled(NewPool(samples, concurrency), expectedStatus, whole)
    ensures Settled(Run(NewPool(samples, concurrency), expectedStatus, whole))
    decreases 2 * samples + concurrency - |events|
  {
    var pool := NewPool(samples, concurrency);
    SettledExactly(Run(pool, expectedStatus, events));
    if Settled(Run(pool, expectedStatus, events)) {
      whole := events;
    } else {
      var e :| Possible(Run(pool, expectedStatus, events), e);
      ScheduledOn(pool, expectedStatus, events, e);
      RunsEnd(samples, concurrency, expectedStatus, events + [e]);
      whole := RunsSettle(samples, concurrency, expectedStatus, events + [e]);
    }
  }
}
