/** The snooze controller as it runs: rows and flags updated in place, one method for each stretch of code
    between two awaits, each proved to do what the state machine says. */
module SnoozeController {
  import opened SnoozeMachine

  class LocalSnoozeController {
    var rows: seq<Row>
    var usable: bool
    var stopped: bool
    var started: bool
    var timer: bool
    var flight: Flight

    function Now(): Controller
      reads this
    {
      Controller(rows, usable, stopped, started, timer, flight)
    }

    /** Reads the marker; any trouble with it leaves a controller that never calls. */
    constructor (tenants: seq<Tenant>, mode: Mode, marker: Marker, readable: bool)
      ensures Now() == Load(tenants, mode, marker, readable)
    {
      usable := true;
      stopped, started, timer, flight := false, false, false, Grounded;
      if mode == Fresh && readable && marker.Absent? {
        rows := NewRows(tenants);
      } else if mode == Restart && readable && marker.Stored? && Matches(marker.rows, tenants) {
        rows := RestartedRows(marker.rows);
      } else {
        usable := false;
        rows := ShutRows(NewRows(tenants));
      }
    }

    /** A controller, unless the catalogue is refused. */
    static method Create(tenants: seq<Tenant>, mode: Mode, marker: Marker, readable: bool)
        returns (c: LocalSnoozeController?)
      ensures c != null <==> Catalogue(tenants)
      ensures c != null ==> fresh(c) && c.Now() == Load(tenants, mode, marker, readable)
    {
      if !Catalogue(tenants) { return null; }
      c := new LocalSnoozeController(tenants, mode, marker, readable);
    }

    method PauseForMarker()
      modifies this
      ensures Now() == ShutAll(old(Now()))
    {
      usable := false;
      rows := ShutRows(rows);
    }

    method Finish()
      modifies this
      ensures Now() == Land(old(Now()))
    {
      flight := Grounded;
      timer := started && !stopped;
    }

    /** The loop over the rows, up to its next await. */
    method Continue(first: nat)
      requires first <= |rows|
      modifies this
      ensures Now() == Advance(old(Now()), first)
    {
      var k := first;
      while k < |rows| && (stopped || rows[k].status == Paused)
        invariant first <= k <= |rows| && Now() == old(Now())
        invariant stopped || NextRow(rows, first) == NextRow(rows, k)
      {
        k := k + 1;
      }
      if k < |rows| {
        var row := rows[k];
        var purpose := if row.status == NeedsRecovery then Recovery else NewWork;
        rows := rows[k := row.(status := Running, purpose := purpose)];
        flight := Announcing(k);
      } else {
        Finish();
      }
    }

    method TimerOrTick()
      modifies this
      ensures Now() == Tick(old(Now()))
    {
      if stopped { return; }
      if flight != Grounded { return; }
      timer := false;
      Continue(0);
    }

    method Begin()
      modifies this
      ensures Now() == Start(old(Now()))
    {
      if started || stopped { return; }
      started := true;
      TimerOrTick();
    }

    method DisposeNow()
      modifies this
      ensures Now() == Dispose(old(Now()))
    {
      stopped := true;
      timer := false;
    }

    /** Refused while a flight is under way, after a disposal, without a marker, and for strangers. */
    method ResumeTenant(t: Tenant) returns (accepted: bool)
      modifies this
      ensures Now() == Resume(old(Now()), t) && accepted == CanResume(old(Now()), t)
    {
      if flight != Grounded || stopped || !usable { return false; }
      var k := 0;
      while k < |rows| && rows[k].tenant != t
        invariant 0 <= k <= |rows| && Now() == old(Now())
        invariant Find(rows, t) == k + Find(rows[k..], t)
      {
        k := k + 1;
      }
      if k == |rows| { return false; }
      timer := false;
      rows := rows[k := rows[k].(status := NeedsRecovery, purpose := Recovery, reason := NoReason)];
      flight := Resuming;
      return true;
    }

    /** After the write that was awaited. */
    method WriteReturned(ok: bool)
      requires flight.Announcing? || flight.Recording? ==> flight.at < |rows|
      modifies this
      ensures Now() == WriteEnds(old(Now()), ok)
    {
      match flight
      case Announcing(k) =>
        if !ok || !usable {
          PauseForMarker();
          Finish();
        } else if stopped {
          Finish();
        } else {
          flight := Calling(k);
        }
      case Recording(k) =>
        if !ok || !usable {
          PauseForMarker();
          Finish();
        } else {
          Continue(k + 1);
        }
      case Resuming =>
        if !ok || !usable { PauseForMarker(); }
        Finish();
      case _ =>
    }

    /** After the call that was awaited. */
    method CallReturned(a: Answer)
      requires flight.Calling? ==> flight.at < |rows|
      modifies this
      ensures Now() == CallEnds(old(Now()), a)
    {
      if !flight.Calling? { return; }
      var k := flight.at;
      var row := rows[k];
      var result := if WellFormed(a) then a else Incomplete(row.purpose == Recovery, Unknown);
      if result.Complete? {
        row := row.(status := Ready, generation := result.generation, outcome := result.outcome, reason := NoReason);
      } else {
        var status := if !result.pause && row.purpose == NewWork then NeedsRecovery else Paused;
        row := row.(status := status, reason := result.reason);
      }
      rows := rows[k := row];
      flight := Recording(k);
    }
  }
}
