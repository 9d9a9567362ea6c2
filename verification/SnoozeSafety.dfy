/** Crash-safe recovery: which calls the snooze controller can make, over all runs. */
module SnoozeSafety {
  import opened SnoozeMachine

  /** No call to `t` is left without a completion. */
  predicate Clean(log: seq<Entry>, t: Tenant) {
    if log == [] then true
    else
      var e := log[|log| - 1];
      if e.tenant == t && e.Called? then false
      else if e.tenant == t && e.Completed? then true
      else Clean(log[..|log| - 1], t)
  }

  /** A recovery call to `t` was made since its last completion or resume. */
  predicate Spent(log: seq<Entry>, t: Tenant) {
    if log == [] then false
    else
      var e := log[|log| - 1];
      if e.tenant == t && e.Called? && e.purpose == Recovery then true
      else if e.tenant == t && !e.Called? then false
      else Spent(log[..|log| - 1], t)
  }

  predicate NoCalls(log: seq<Entry>) {
    forall i | 0 <= i < |log| :: !log[i].Called?
  }

  /** New work is never called on top of a call that did not complete, and no recovery is called twice. */
  predicate Permitted(log: seq<Entry>, e: Entry) {
    e.Called? ==> if e.purpose == NewWork then Clean(log, e.tenant) else !Spent(log, e.tenant)
  }

  predicate Orderly(log: seq<Entry>) {
    forall i | 0 <= i < |log| :: Permitted(log[..i], log[i])
  }

  lemma CleanAppend(log: seq<Entry>, e: Entry, t: Tenant)
    ensures Clean(log + [e], t) ==
      if e.tenant == t && e.Called? then false else if e.tenant == t && e.Completed? then true else Clean(log, t)
  {
    assert (log + [e])[..|log|] == log;
  }

  lemma SpentAppend(log: seq<Entry>, e: Entry, t: Tenant)
    ensures Spent(log + [e], t) ==
      if e.tenant == t && e.Called? && e.purpose == Recovery then true
      else if e.tenant == t && !e.Called? then false
      else Spent(log, t)
  {
    assert (log + [e])[..|log|] == log;
  }

  lemma OrderlyAppend(log: seq<Entry>, e: Entry)
    requires Orderly(log) && Permitted(log, e)
    ensures Orderly(log + [e])
  {
    forall i | 0 <= i < |log + [e]| ensures Permitted((log + [e])[..i], (log + [e])[i]) {
      assert (log + [e])[..i] == log[..i];
      if i == |log| { assert log[..i] == log; }
    }
  }

  lemma {:induction false} CleanIsNotSpent(log: seq<Entry>, t: Tenant)
    requires Clean(log, t)
    ensures !Spent(log, t)
  {
    if log != [] {
      var e := log[|log| - 1];
      if !(e.tenant == t && !e.Called?) { CleanIsNotSpent(log[..|log| - 1], t); }
    }
  }

  lemma {:induction false} NoCallsIsClean(log: seq<Entry>, t: Tenant)
    requires NoCalls(log)
    ensures Clean(log, t)
  {
    if log != [] { NoCallsIsClean(log[..|log| - 1], t); }
  }

  // ---- The invariant ----

  /** What a call with this row's purpose needs. */
  predicate May(log: seq<Entry>, row: Row) {
    if row.purpose == NewWork then Clean(log, row.tenant) else !Spent(log, row.tenant)
  }

  predicate RowSafe(log: seq<Entry>, row: Row) {
    && (row.status == Ready ==> Clean(log, row.tenant))
    && (row.status == NeedsRecovery ==> !Spent(log, row.tenant))
  }

  predicate InFlight(f: Flight, k: nat) {
    (f.Announcing? || f.Calling?) && f.at == k
  }

  predicate FlightSafe(log: seq<Entry>, c: Controller) {
    var f := c.flight;
    && (f != Grounded ==> c.usable)
    && (f.Announcing? || f.Calling? || f.Recording? ==> f.at < |c.rows|)
    && (f.Announcing? || f.Calling? ==> c.rows[f.at].status == Running)
    && (f.Announcing? ==> May(log, c.rows[f.at]))
    && (f.Calling? && c.rows[f.at].purpose == NewWork ==> !Spent(log, c.rows[f.at].tenant))
  }

  predicate ControllerSafe(log: seq<Entry>, c: Controller) {
    && (forall i, j | 0 <= i < j < |c.rows| :: c.rows[i].tenant != c.rows[j].tenant)
    && (!c.usable ==> forall i | 0 <= i < |c.rows| :: c.rows[i].status == Paused)
    && (forall i | 0 <= i < |c.rows| :: RowSafe(log, c.rows[i]))
    && (forall i | 0 <= i < |c.rows| && c.rows[i].status == Running ::
        InFlight(c.flight, i) || (c.stopped && c.flight == Grounded))
    && FlightSafe(log, c)
  }

  predicate MarkerSafe(log: seq<Entry>, m: Marker) {
    && (m.Absent? ==> NoCalls(log))
    && (m.Stored? ==> forall i | 0 <= i < |m.rows| && Restarted(m.rows[i]).status == NeedsRecovery ::
        !Spent(log, m.rows[i].tenant))
  }

  predicate Inv(w: World) {
    Orderly(w.log) && MarkerSafe(w.log, w.marker) && (w.process.Up? ==> ControllerSafe(w.log, w.process.c))
  }

  // ---- Every stretch keeps it ----

  lemma LoadSafe(log: seq<Entry>, tenants: seq<Tenant>, mode: Mode, marker: Marker, readable: bool)
    requires MarkerSafe(log, marker) && Catalogue(tenants)
    ensures ControllerSafe(log, Load(tenants, mode, marker, readable))
  {
    if StartsFresh(mode, marker, readable) {
      forall i | 0 <= i < |tenants| ensures Clean(log, tenants[i]) { NoCallsIsClean(log, tenants[i]); }
    }
  }

  lemma AdvanceSafe(log: seq<Entry>, c: Controller, i: nat)
    requires ControllerSafe(log, c) && i <= |c.rows| && c.usable && !(c.flight.Announcing? || c.flight.Calling?)
    requires forall j | 0 <= j < |c.rows| && c.rows[j].status == Running :: c.stopped && c.flight == Grounded
    ensures ControllerSafe(log, Advance(c, i))
  {
    if !c.stopped {
      var k := NextRow(c.rows, i);
      if k < |c.rows| {
        var d := Announce(c, k);
        assert forall j | 0 <= j < |d.rows| ::
            d.rows[j].tenant == c.rows[j].tenant && (j != k ==> d.rows[j] == c.rows[j]);
      }
    }
  }

  lemma TickSafe(log: seq<Entry>, c: Controller)
    requires ControllerSafe(log, c)
    ensures ControllerSafe(log, Tick(c)) && ControllerSafe(log, Start(c)) && ControllerSafe(log, Dispose(c))
  {
    TickFrom(log, c);
    TickFrom(log, c.(started := true));
  }

  lemma TickFrom(log: seq<Entry>, c: Controller)
    requires ControllerSafe(log, c)
    ensures ControllerSafe(log, Tick(c))
  {
    if !c.stopped && c.flight == Grounded {
      if c.usable { AdvanceSafe(log, c.(timer := false), 0); }
    }
  }

  /** A completion or a resume forbids nothing. */
  lemma QuietAppend(log: seq<Entry>, e: Entry)
    requires !e.Called?
    ensures forall t :: Clean(log, t) ==> Clean(log + [e], t)
    ensures forall t :: !Spent(log, t) ==> !Spent(log + [e], t)
    ensures Orderly(log) ==> Orderly(log + [e])
    ensures NoCalls(log) ==> NoCalls(log + [e])
  {
    forall t ensures Clean(log, t) ==> Clean(log + [e], t) { CleanAppend(log, e, t); }
    forall t ensures !Spent(log, t) ==> !Spent(log + [e], t) { SpentAppend(log, e, t); }
    if Orderly(log) { OrderlyAppend(log, e); }
  }

  lemma QuietSafe(log: seq<Entry>, e: Entry, c: Controller, m: Marker)
    requires !e.Called? && ControllerSafe(log, c) && MarkerSafe(log, m)
    ensures ControllerSafe(log + [e], c) && MarkerSafe(log + [e], m)
  {
    QuietAppend(log, e);
  }

  lemma ResumeSafe(log: seq<Entry>, c: Controller, t: Tenant)
    requires ControllerSafe(log, c) && CanResume(c, t)
    ensures ControllerSafe(log + [Reopened(t)], Resume(c, t))
  {
    QuietSafe(log, Reopened(t), c, Garbage);
    SpentAppend(log, Reopened(t), t);
    var k, d := Find(c.rows, t), Resume(c, t);
    assert forall j | 0 <= j < |d.rows| :: d.rows[j].tenant == c.rows[j].tenant && (j != k ==> d.rows[j] == c.rows[j]);
  }

  lemma CallEndsSafe(log: seq<Entry>, c: Controller, a: Answer)
    requires ControllerSafe(log, c)
    ensures ControllerSafe(log + CallCompleted(c, a), CallEnds(c, a))
  {
    if c.flight.Calling? {
      var k, d := c.flight.at, CallEnds(c, a);
      var t := c.rows[k].tenant;
      assert forall j | 0 <= j < |d.rows| ::
          d.rows[j].tenant == c.rows[j].tenant && (j != k ==> d.rows[j] == c.rows[j]);
      if Completes(a) {
        QuietSafe(log, Completed(t), c, Garbage);
        CleanAppend(log, Completed(t), t);
      } else {
        assert log + [] == log;
      }
    } else {
      assert log + [] == log;
    }
  }

  /** A marker written in mid-flight says of each row what a restart may do. */
  lemma WrittenSafe(log: seq<Entry>, c: Controller)
    requires ControllerSafe(log, c) && Writing(c)
    ensures MarkerSafe(log, Stored(c.rows))
  {
    forall i | 0 <= i < |c.rows| && Restarted(c.rows[i]).status == NeedsRecovery ensures !Spent(log, c.rows[i].tenant) {
      if Clean(log, c.rows[i].tenant) { CleanIsNotSpent(log, c.rows[i].tenant); }
      if c.rows[i].status == Running { assert InFlight(c.flight, i); }
    }
  }

  /** The call that an announcement was written for. */
  lemma CallSafe(log: seq<Entry>, c: Controller)
    requires Orderly(log) && ControllerSafe(log, c) && c.flight.Announcing? && !c.stopped
    ensures var e := Called(c.rows[c.flight.at].tenant, c.rows[c.flight.at].purpose);
      Orderly(log + [e]) && MarkerSafe(log + [e], Stored(c.rows)) &&
          ControllerSafe(log + [e], c.(flight := Calling(c.flight.at)))
  {
    var k := c.flight.at;
    var row := c.rows[k];
    var e := Called(row.tenant, row.purpose);
    var d := c.(flight := Calling(k));
    OrderlyAppend(log, e);
    WrittenSafe(log, c);
    if row.purpose == NewWork { CleanIsNotSpent(log, row.tenant); }
    forall i | 0 <= i < |c.rows|
      ensures RowSafe(log + [e], c.rows[i])
      ensures Spent(log + [e], c.rows[i].tenant) ==> Spent(log, c.rows[i].tenant) || (i == k && row.purpose == Recovery)
    {
      CleanAppend(log, e, c.rows[i].tenant);
      SpentAppend(log, e, c.rows[i].tenant);
    }
    forall i | 0 <= i < |d.rows| && d.rows[i].status == Running ensures InFlight(d.flight, i) {
      assert InFlight(c.flight, i);
    }
  }

  lemma WriteFailsSafe(log: seq<Entry>, c: Controller)
    requires ControllerSafe(log, c)
    ensures ControllerSafe(log, Land(ShutAll(c)))
  {
  }

  lemma WriteEndsSafe(w: World, c: Controller, ok: bool, replaced: bool)
    requires Inv(w) && w.process == Up(c)
    ensures Inv(StepUp(w, c, WriteReturns(ok, replaced)))
  {
    assert w.log + [] == w.log;
    if Writing(c) {
      WrittenSafe(w.log, c);
      if ok && c.flight.Announcing? && !c.stopped {
        CallSafe(w.log, c);
      } else {
        QuietWriteSafe(w.log, c, ok);
      }
    }
  }

  lemma QuietWriteSafe(log: seq<Entry>, c: Controller, ok: bool)
    requires ControllerSafe(log, c) && Writing(c) && !(ok && c.flight.Announcing? && !c.stopped)
    ensures ControllerSafe(log, WriteEnds(c, ok)) && CallMade(c, WriteEnds(c, ok)) == []
  {
    if !ok {
      WriteFailsSafe(log, c);
    } else if c.flight.Recording? {
      AdvanceSafe(log, c, c.flight.at + 1);
    }
  }

  lemma StepUpSafe(w: World, c: Controller, e: Event)
    requires Inv(w) && w.process == Up(c)
    ensures Inv(StepUp(w, c, e))
  {
    assert w.log + [] == w.log;
    TickSafe(w.log, c);
    match e
    case Resumes(t) =>
      if CanResume(c, t) {
        ResumeSafe(w.log, c, t);
        QuietAppend(w.log, Reopened(t));
      }
    case WriteReturns(ok, replaced) => WriteEndsSafe(w, c, ok, replaced);
    case CallReturns(a) =>
      CallEndsSafe(w.log, c, a);
      if CallCompleted(c, a) != [] { QuietAppend(w.log, CallCompleted(c, a)[0]); }
    case _ =>
  }

  lemma StepSafe(w: World, e: Event)
    requires Inv(w)
    ensures Inv(Step(w, e))
  {
    if e.Boot? && w.process.Down? && Catalogue(e.tenants) {
      LoadSafe(w.log, e.tenants, e.mode, w.marker, e.readable);
    } else if e.Crash? && w.process.Up? && Writing(w.process.c) {
      WrittenSafe(w.log, w.process.c);
    } else if w.process.Up? && !e.Boot? && !e.Crash? && !e.Corrupts? {
      StepUpSafe(w, w.process.c, e);
    }
  }

  lemma {:induction false} RunSafe(w: World, events: seq<Event>)
    requires Inv(w)
    ensures Inv(Run(w, events))
  {
    if events != [] {
      RunSafe(w, events[..|events| - 1]);
      StepSafe(Run(w, events[..|events| - 1]), events[|events| - 1]);
    }
  }

  // ---- What an observer of the calls sees ----

  lemma {:induction false} CompletedSince(log: seq<Entry>, t: Tenant, i: nat)
    requires i < |log| && log[i].Called? && log[i].tenant == t && Clean(log, t)
    ensures exists m :: i < m < |log| && log[m] == Completed(t)
  {
    var e := log[|log| - 1];
    if e.tenant == t && e.Completed? {
      assert log[|log| - 1] == Completed(t);
    } else {
      var front := log[..|log| - 1];
      CompletedSince(front, t, i);
      var m :| i < m < |front| && front[m] == Completed(t);
      assert log[m] == Completed(t);
    }
  }

  lemma {:induction false} ReleasedSince(log: seq<Entry>, t: Tenant, i: nat)
    requires i < |log| && log[i] == Called(t, Recovery) && !Spent(log, t)
    ensures exists m :: i < m < |log| && (log[m] == Completed(t) || log[m] == Reopened(t))
  {
    var e := log[|log| - 1];
    if e.tenant == t && !e.Called? {
      assert e == Completed(t) || e == Reopened(t);
    } else {
      var front := log[..|log| - 1];
      ReleasedSince(front, t, i);
      var m :| i < m < |front| && (front[m] == Completed(t) || front[m] == Reopened(t));
      assert log[m] == front[m];
    }
  }

  /** In every run from a controller not yet started, whatever the marker says, with crashes, corruption
      of the marker and restarts at any step: every earlier call to a tenant, so also the last one, has
      completed before the tenant is called with new work. */
  lemma NewWorkFollowsCompletion(marker: Marker, events: seq<Event>, i: nat, j: nat)
    requires var log := Run(World(marker, Down, []), events).log;
      i < j < |log| && log[i].Called? && log[j] == Called(log[i].tenant, NewWork)
    ensures var log := Run(World(marker, Down, []), events).log;
      exists m :: i < m < j && log[m] == Completed(log[i].tenant)
  {
    var w := Run(World(marker, Down, []), events);
    RunSafe(World(marker, Down, []), events);
    assert Permitted(w.log[..j], w.log[j]);
    CompletedSince(w.log[..j], w.log[i].tenant, i);
    var m :| i < m < |w.log[..j]| && w.log[..j][m] == Completed(w.log[i].tenant);
    assert w.log[m] == Completed(w.log[i].tenant);
  }

  /** Between two recovery calls to a tenant there is a completed call or a resume. */
  lemma RecoveryIsTriedOnce(marker: Marker, events: seq<Event>, i: nat, j: nat)
    requires var log := Run(World(marker, Down, []), events).log;
      i < j < |log| && log[i].Called? && log[i].purpose == Recovery && log[j] == log[i]
    ensures var log := Run(World(marker, Down, []), events).log;
      exists m :: i < m < j && (log[m] == Completed(log[i].tenant) || log[m] == Reopened(log[i].tenant))
  {
    var w := Run(World(marker, Down, []), events);
    var t := w.log[i].tenant;
    RunSafe(World(marker, Down, []), events);
    assert Permitted(w.log[..j], w.log[j]);
    ReleasedSince(w.log[..j], t, i);
    var m :| i < m < |w.log[..j]| && (w.log[..j][m] == Completed(t) || w.log[..j][m] == Reopened(t));
    assert w.log[m] == w.log[..j][m];
  }

  /** Disposed, or without a usable marker. */
  predicate Silent(w: World) {
    w.process.Up? ==> w.process.c.stopped || !w.process.c.usable
  }

  lemma StepSilent(w: World, e: Event)
    requires Inv(w) && Silent(w) && !e.Boot?
    ensures Silent(Step(w, e)) && |w.log| <= |Step(w, e).log| && w.log == Step(w, e).log[..|w.log|]
    ensures forall i | |w.log| <= i < |Step(w, e).log| :: !Step(w, e).log[i].Called?
  {
  }

  /** A disposed controller, and one whose marker could not be read or written, calls nobody until the
      next start of the process. */
  lemma {:induction false} SilentNeverCalls(w: World, events: seq<Event>)
    requires Inv(w) && Silent(w) && forall k | 0 <= k < |events| :: !events[k].Boot?
    ensures Silent(Run(w, events)) && |w.log| <= |Run(w, events).log|
    ensures forall i | |w.log| <= i < |Run(w, events).log| :: !Run(w, events).log[i].Called?
  {
    if events != [] {
      var front := events[..|events| - 1];
      SilentNeverCalls(w, front);
      RunSafe(w, front);
      StepSilent(Run(w, front), events[|events| - 1]);
    }
  }
}
