/** The fixed-hour triage clock: time that passes only outside the pauses of a ticket. */
module PriorityClock {
  import opened Numbers
  import opened PriorityQueue

  /** A time in milliseconds; anything that is not a safe integer is `Unsafe`. */
  datatype Instant = At(ms: int) | Unsafe

  /** `Open`: the current waiting or resolved period. */
  datatype End = Open | Ends(at: Instant)

  datatype Pause = Missing | Pause(start: Instant, end: End)

  datatype Reading = Rejected | Hours(hours: real)

  const HOUR_MS := 3_600_000

  predicate Safe(t: Instant) {
    t.At? && -MAX_SAFE_INTEGER <= t.ms <= MAX_SAFE_INTEGER
  }

  predicate GoodWindow(contract: Contract, criticality: Number) {
    contract != UnknownContract && Tier(criticality)
  }

  predicate GoodBounds(started: Instant, evaluated: Instant, pauses: seq<Pause>) {
    Safe(started) && Safe(evaluated) && started.ms <= evaluated.ms && |pauses| <= 4096
  }

  // ---- What a pause history means ----

  /** Where the pause begins and, seen at `now`, ends. */
  predicate Readable(p: Pause) {
    p.Pause? && Safe(p.start) && (p.end.Ends? ==> Safe(p.end.at))
  }

  function EndMs(p: Pause, now: int): int
    requires Readable(p)
  {
    if p.end.Open? then now else p.end.at.ms
  }

  /** Pauses in order, apart from each other, within `[started, now]`; only the last may be open. */
  predicate GoodHistory(started: int, now: int, pauses: seq<Pause>) {
    && (forall i | 0 <= i < |pauses| :: Within(started, now, pauses[i]))
    && (forall i, j | 0 <= i < j < |pauses| :: Precedes(pauses[i], pauses[j]))
  }

  predicate Within(started: int, now: int, p: Pause) {
    Readable(p) && started <= p.start.ms <= EndMs(p, now) <= now
  }

  predicate Precedes(p: Pause, q: Pause) {
    Readable(p) && Readable(q) && p.end.Ends? && p.end.at.ms <= q.start.ms
  }

  predicate InPause(p: Pause, t: int) {
    Readable(p) && p.start.ms <= t && (p.end.Ends? ==> t < p.end.at.ms)
  }

  predicate Paused(pauses: seq<Pause>, t: int) {
    exists i | 0 <= i < |pauses| :: InPause(pauses[i], t)
  }

  /** The milliseconds in `[low, high)` that are in no pause. */
  function Active(low: int, high: int, pauses: seq<Pause>): (n: nat)
    decreases high - low
  {
    if high <= low then 0 else Active(low, high - 1, pauses) + if Paused(pauses, high - 1) then 0 else 1
  }

  lemma {:induction false} ActiveSpan(low: int, middle: int, high: int, pauses: seq<Pause>, paused: bool)
    requires low <= middle <= high && forall t | middle <= t < high :: Paused(pauses, t) == paused
    ensures Active(low, high, pauses) == Active(low, middle, pauses) + if paused then 0 else high - middle
    decreases high - middle
  {
    if middle < high { ActiveSpan(low, middle, high - 1, pauses, paused); }
  }

  lemma {:induction false} ActiveSame(low: int, high: int, pauses: seq<Pause>, others: seq<Pause>)
    requires forall t | low <= t < high :: Paused(pauses, t) == Paused(others, t)
    ensures Active(low, high, pauses) == Active(low, high, others)
    decreases high - low
  {
    if low < high { ActiveSame(low, high - 1, pauses, others); }
  }

  lemma {:induction false} ActiveGrows(low: int, middle: int, high: int, pauses: seq<Pause>)
    requires middle <= high
    ensures Active(low, middle, pauses) <= Active(low, high, pauses)
    decreases high - middle
  {
    if middle < high { ActiveGrows(low, middle, high - 1, pauses); }
  }

  // ---- The loop ----

  lemma PausedPrefix(pauses: seq<Pause>, k: nat, t: int)
    requires k < |pauses|
    ensures Paused(pauses[..k + 1], t) <==> Paused(pauses[..k], t) || InPause(pauses[k], t)
  {
    var longer, shorter := pauses[..k + 1], pauses[..k];
    if Paused(longer, t) {
      var i :| 0 <= i < |longer| && InPause(longer[i], t);
      if i < k { assert InPause(shorter[i], t); }
    }
    if Paused(shorter, t) {
      var i :| 0 <= i < |shorter| && InPause(shorter[i], t);
      assert InPause(longer[i], t);
    }
    assert InPause(pauses[k], t) ==> InPause(longer[k], t);
  }

  /** Everything before `k` ends by `previousEnd`. */
  predicate EndedBy(pauses: seq<Pause>, k: nat, previousEnd: int)
    requires k <= |pauses|
  {
    forall i | 0 <= i < k :: pauses[i].Pause? && pauses[i].end.Ends? && pauses[i].end.at.At? &&
        pauses[i].end.at.ms <= previousEnd
  }

  /** One more pause, after all the others. */
  lemma ActiveStep(started: int, now: int, pauses: seq<Pause>, k: nat, previousEnd: int)
    requires k < |pauses| && EndedBy(pauses, k, previousEnd) && Readable(pauses[k])
    requires started <= previousEnd <= pauses[k].start.ms <= EndMs(pauses[k], now) <= now
    ensures Active(started, EndMs(pauses[k], now), pauses[..k + 1])
            == Active(started, previousEnd, pauses[..k]) + (pauses[k].start.ms - previousEnd)
  {
    var start, end := pauses[k].start.ms, EndMs(pauses[k], now);
    forall t | started <= t < end
      ensures Paused(pauses[..k + 1], t) <==> (t < previousEnd && Paused(pauses[..k], t)) || start <= t
    {
      PausedPrefix(pauses, k, t);
    }
    ActiveSpan(started, start, end, pauses[..k + 1], true);
    ActiveSpan(started, previousEnd, start, pauses[..k + 1], false);
    ActiveSame(started, previousEnd, pauses[..k + 1], pauses[..k]);
  }

  /** After the last pause the clock runs. */
  lemma ActiveRest(started: int, now: int, pauses: seq<Pause>, previousEnd: int)
    requires started <= previousEnd <= now && (previousEnd < now ==> EndedBy(pauses, |pauses|, previousEnd))
    ensures Active(started, now, pauses) == Active(started, previousEnd, pauses) + (now - previousEnd)
  {
    ActiveSpan(started, previousEnd, now, pauses, false);
  }

  function Window(contract: Contract, criticality: Number): real
    requires GoodWindow(contract, criticality)
  {
    AbsoluteWindow(contract, criticality) as real
  }

  predicate Accepted(contract: Contract, criticality: Number, started: Instant, evaluated: Instant,
      pauses: seq<Pause>) {
    GoodWindow(contract, criticality) && GoodBounds(started, evaluated, pauses) &&
        GoodHistory(started.ms, evaluated.ms, pauses)
  }

  /** The window less the time outside every pause. */
  function Left(contract: Contract, criticality: Number, started: Instant, evaluated: Instant, pauses: seq<Pause>): real
    requires Accepted(contract, criticality, started, evaluated, pauses)
  {
    Window(contract, criticality) - Active(started.ms, evaluated.ms, pauses) as real / HOUR_MS as real
  }

  /** The loop's test of one pause. */
  predicate Refused(pauses: seq<Pause>, k: nat, previousEnd: int, now: int)
    requires k < |pauses|
  {
    var p := pauses[k];
    !Readable(p) || p.start.ms < previousEnd || p.start.ms > now || EndMs(p, now) < p.start.ms || EndMs(p, now) > now
    || (p.end.Open? && k != |pauses| - 1)
  }

  lemma GoodIsNotRefused(started: int, now: int, pauses: seq<Pause>, k: nat, previousEnd: int)
    requires k < |pauses| && (k > 0 ==> Readable(pauses[k - 1]))
    requires previousEnd == if k == 0 then started else EndMs(pauses[k - 1], now)
    ensures GoodHistory(started, now, pauses) ==> !Refused(pauses, k, previousEnd, now)
  {
    if GoodHistory(started, now, pauses) {
      assert Within(started, now, pauses[k]);
      if k > 0 { assert Precedes(pauses[k - 1], pauses[k]); }
      if k < |pauses| - 1 { assert Precedes(pauses[k], pauses[k + 1]); }
    }
  }

  /** After a pause that is not refused. */
  predicate Reached(started: int, now: int, pauses: seq<Pause>, k: nat, previousEnd: int)
    requires k <= |pauses|
  {
    && started <= previousEnd <= now && GoodHistory(started, now, pauses[..k])
    && (EndedBy(pauses, k, previousEnd) || (k == |pauses| && previousEnd == now))
    && previousEnd == if k == 0 then started else EndMs(pauses[..k][k - 1], now)
  }

  lemma ReachesNext(started: int, now: int, pauses: seq<Pause>, k: nat, previousEnd: int)
    requires k < |pauses| && Reached(started, now, pauses, k, previousEnd) && !Refused(pauses, k, previousEnd, now)
    ensures Reached(started, now, pauses, k + 1, EndMs(pauses[k], now))
  {
    var longer := pauses[..k + 1];
    assert forall i | 0 <= i < k :: longer[i] == pauses[..k][i];
  }

  method PriorityTimeRemainingFromPauses(contract: Contract, criticality: Number, started: Instant, evaluated: Instant,
      pauses: seq<Pause>)
    returns (r: Reading)
    ensures r.Hours? <==> Accepted(contract, criticality, started, evaluated, pauses)
    ensures r.Hours? ==> r.hours == Left(contract, criticality, started, evaluated, pauses)
  {
    if !GoodWindow(contract, criticality) { return Rejected; }
    var window := Window(contract, criticality);
    if !GoodBounds(started, evaluated, pauses) { return Rejected; }
    var now := evaluated.ms;
    var previousEnd, pausedMs := started.ms, 0;
    var index := 0;
    while index < |pauses|
      invariant 0 <= index <= |pauses| && Reached(started.ms, now, pauses, index, previousEnd)
      invariant Active(started.ms, previousEnd, pauses[..index]) == previousEnd - started.ms - pausedMs
    {
      GoodIsNotRefused(started.ms, now, pauses, index, previousEnd);
      if Refused(pauses, index, previousEnd, now) { return Rejected; }
      var pause := pauses[index];
      var end := EndMs(pause, now);
      ActiveStep(started.ms, now, pauses, index, previousEnd);
      ReachesNext(started.ms, now, pauses, index, previousEnd);
      pausedMs := pausedMs + (end - pause.start.ms);
      previousEnd := end;
      index := index + 1;
    }
    assert pauses[..index] == pauses;
    ActiveRest(started.ms, now, pauses, previousEnd);
    r := Hours(window - (now - started.ms - pausedMs) as real / HOUR_MS as real);
  }

  // ---- What the clock promises ----

  /** A history that is good now stays good. */
  lemma StaysGood(started: int, now: int, later: int, pauses: seq<Pause>)
    requires GoodHistory(started, now, pauses) && now <= later
    ensures GoodHistory(started, later, pauses)
  {
    forall i | 0 <= i < |pauses| ensures Within(started, later, pauses[i]) {
      assert Within(started, now, pauses[i]);
    }
  }

  lemma LessActiveMoreLeft(window: real, few: nat, many: nat)
    requires few <= many
    ensures window - many as real / HOUR_MS as real <= window - few as real / HOUR_MS as real
  {
  }

  /** The remaining time never exceeds the window, never rises as evaluation moves later, and stands still
      while the last pause is open. */
  lemma ClockRunsOneWay(contract: Contract, criticality: Number, started: Instant, evaluated: Instant, later: Instant,
      pauses: seq<Pause>)
    requires Accepted(contract, criticality, started, evaluated, pauses) && Safe(later) && evaluated.ms <= later.ms
    ensures Accepted(contract, criticality, started, later, pauses)
    ensures
      var now := Left(contract, criticality, started, evaluated, pauses);
      var ahead := Left(contract, criticality, started, later, pauses);
      && ahead <= now <= Window(contract, criticality)
      && (pauses != [] && pauses[|pauses| - 1].end.Open? ==> ahead == now)
  {
    StaysGood(started.ms, evaluated.ms, later.ms, pauses);
    ActiveGrows(started.ms, evaluated.ms, later.ms, pauses);
    var window := Window(contract, criticality);
    LessActiveMoreLeft(window, Active(started.ms, evaluated.ms, pauses), Active(started.ms, later.ms, pauses));
    LessActiveMoreLeft(window, 0, Active(started.ms, evaluated.ms, pauses));
    if pauses != [] && pauses[|pauses| - 1].end.Open? {
      forall t | evaluated.ms <= t < later.ms ensures Paused(pauses, t) { assert InPause(pauses[|pauses| - 1], t); }
      ActiveSpan(started.ms, evaluated.ms, later.ms, pauses, true);
    }
  }
}
