/** The local snooze controller as a state machine: its stretches between awaits, the marker file it
    keeps, and crashes and restarts at any step. */
module SnoozeMachine {
  import opened Numbers

  /** A tenant's name in UTF-8. */
  type Tenant = seq<bv8>

  datatype Purpose = NewWork | Recovery
  datatype Status = Ready | Running | NeedsRecovery | Paused
  datatype Outcome = NoOutcome | NoSnoozes | Empty | Resurfaced
  datatype Reason = NoReason | Unknown | AdmissionRejected | MarkerUnavailable

  datatype Row = Row(tenant: Tenant, status: Status, purpose: Purpose, generation: int, outcome: Outcome,
      reason: Reason)

  /** `Garbage` is anything that does not parse as rows of known states. */
  datatype Marker = Absent | Garbage | Stored(rows: seq<Row>)

  datatype Mode = Fresh | Restart

  /** What the running flight waits for: the write that announces a call, the call, the write that
      records its result, or the write of a resume. */
  datatype Flight = Grounded | Announcing(at: nat) | Calling(at: nat) | Recording(at: nat) | Resuming

  datatype Controller = Controller(rows: seq<Row>, usable: bool, stopped: bool, started: bool, timer: bool,
      flight: Flight)

  /** `pause` tells 'paused' from 'recovery-needed'. */
  datatype Answer = Complete(generation: int, outcome: Outcome) | Incomplete(pause: bool, reason: Reason) | Thrown

  predicate Identity(t: Tenant) {
    0 < |t| <= 160 && forall i | 0 <= i < |t| :: t[i] >= 0x20 && t[i] != 0x7F
  }

  predicate Catalogue(tenants: seq<Tenant>) {
    && tenants != [] && (forall i | 0 <= i < |tenants| :: Identity(tenants[i]))
    && (forall i, j | 0 <= i < j < |tenants| :: tenants[i] != tenants[j])
  }

  // ---- Loading the marker ----

  predicate Counts(generation: int) {
    0 <= generation <= MAX_SAFE_INTEGER
  }

  predicate Matches(rows: seq<Row>, tenants: seq<Tenant>) {
    |rows| == |tenants| && forall i | 0 <= i < |rows| :: rows[i].tenant == tenants[i] && Counts(rows[i].generation)
  }

  function NewRow(t: Tenant): Row {
    Row(t, Ready, NewWork, 0, NoOutcome, NoReason)
  }

  function Shut(row: Row): Row {
    row.(status := Paused, reason := MarkerUnavailable)
  }

  /** A recovery that may have been under way is not tried a second time. */
  function Restarted(row: Row): Row {
    var tried := row.status == Paused || (row.status == Running && row.purpose == Recovery);
    row.(status := if tried then Paused else NeedsRecovery, purpose := Recovery)
  }

  function NewRows(tenants: seq<Tenant>): (r: seq<Row>)
    ensures |r| == |tenants| && forall i | 0 <= i < |r| :: r[i] == NewRow(tenants[i])
  {
    seq(|tenants|, i requires 0 <= i < |tenants| => NewRow(tenants[i]))
  }

  function ShutRows(rows: seq<Row>): (r: seq<Row>)
    ensures |r| == |rows| && forall i | 0 <= i < |r| :: r[i] == Shut(rows[i])
  {
    seq(|rows|, i requires 0 <= i < |rows| => Shut(rows[i]))
  }

  function RestartedRows(rows: seq<Row>): (r: seq<Row>)
    ensures |r| == |rows| && forall i | 0 <= i < |r| :: r[i] == Restarted(rows[i])
  {
    seq(|rows|, i requires 0 <= i < |rows| => Restarted(rows[i]))
  }

  predicate StartsFresh(mode: Mode, marker: Marker, readable: bool) {
    mode == Fresh && readable && marker.Absent?
  }

  predicate StartsAgain(tenants: seq<Tenant>, mode: Mode, marker: Marker, readable: bool) {
    mode == Restart && readable && marker.Stored? && Matches(marker.rows, tenants)
  }

  function Load(tenants: seq<Tenant>, mode: Mode, marker: Marker, readable: bool): Controller {
    var again := StartsAgain(tenants, mode, marker, readable);
    var usable := StartsFresh(mode, marker, readable) || again;
    var rows :=
      if again then RestartedRows(marker.rows) else if usable then NewRows(tenants) else ShutRows(NewRows(tenants));
    Controller(rows, usable, false, false, false, Grounded)
  }

  // ---- The stretches ----

  /** The first row from `i` on that is not paused. */
  function NextRow(rows: seq<Row>, i: nat): (k: nat)
    requires i <= |rows|
    ensures i <= k <= |rows| && (k < |rows| ==> rows[k].status != Paused)
    ensures forall j | i <= j < k :: rows[j].status == Paused
    decreases |rows| - i
  {
    if i == |rows| || rows[i].status != Paused then i else NextRow(rows, i + 1)
  }

  function Announced(row: Row): Row {
    row.(status := Running, purpose := if row.status == NeedsRecovery then Recovery else NewWork)
  }

  /** The flight is over; a started controller arms its timer. */
  function Land(c: Controller): Controller {
    c.(flight := Grounded, timer := c.started && !c.stopped)
  }

  function Announce(c: Controller, k: nat): Controller
    requires k < |c.rows|
  {
    c.(rows := c.rows[k := Announced(c.rows[k])], flight := Announcing(k))
  }

  /** The loop over the rows, from row `i` to its next await. */
  function Advance(c: Controller, i: nat): Controller
    requires i <= |c.rows|
  {
    var k := if c.stopped then |c.rows| else NextRow(c.rows, i);
    if k < |c.rows| then Announce(c, k) else Land(c)
  }

  function Tick(c: Controller): Controller {
    if c.stopped || c.flight != Grounded then c else Advance(c.(timer := false), 0)
  }

  function Start(c: Controller): Controller {
    if c.started || c.stopped then c else Tick(c.(started := true))
  }

  function Dispose(c: Controller): Controller {
    c.(stopped := true, timer := false)
  }

  function ShutAll(c: Controller): Controller {
    c.(usable := false, rows := ShutRows(c.rows))
  }

  /** The row of a tenant, or the number of rows. */
  function Find(rows: seq<Row>, t: Tenant): (k: nat)
    ensures k <= |rows| && (k < |rows| ==> rows[k].tenant == t) && forall j | 0 <= j < k :: rows[j].tenant != t
  {
    if rows == [] || rows[0].tenant == t then 0 else 1 + Find(rows[1..], t)
  }

  predicate CanResume(c: Controller, t: Tenant) {
    c.flight == Grounded && !c.stopped && c.usable && Find(c.rows, t) < |c.rows|
  }

  function Resumed(row: Row): Row {
    row.(status := NeedsRecovery, purpose := Recovery, reason := NoReason)
  }

  function Resume(c: Controller, t: Tenant): Controller {
    if !CanResume(c, t) then c else
    var k := Find(c.rows, t);
    c.(rows := c.rows[k := Resumed(c.rows[k])], timer := false, flight := Resuming)
  }

  predicate Writing(c: Controller) {
    c.flight.Announcing? || c.flight.Recording? || c.flight.Resuming?
  }

  /** The write of the marker has returned, well or not. */
  function WriteEnds(c: Controller, ok: bool): Controller {
    if !Writing(c) then c
    else if !ok || !c.usable then Land(ShutAll(c))
    else if c.flight.Announcing? && !c.stopped then c.(flight := Calling(c.flight.at))
    else if c.flight.Recording? && c.flight.at < |c.rows| then Advance(c, c.flight.at + 1)
    else Land(c)
  }

  /** An answer out of range counts as an exception. */
  predicate WellFormed(a: Answer) {
    match a
    case Complete(generation, outcome) => Counts(generation) && outcome != NoOutcome
    case Incomplete(_, reason) => reason == Unknown || reason == AdmissionRejected
    case Thrown => false
  }

  predicate Completes(a: Answer) {
    a.Complete? && WellFormed(a)
  }

  function Answered(row: Row, a: Answer): Row {
    if Completes(a) then row.(status := Ready, generation := a.generation, outcome := a.outcome, reason := NoReason)
    else
      var pause := if WellFormed(a) then a.pause else row.purpose == Recovery;
      row.(status := if !pause && row.purpose == NewWork then NeedsRecovery else Paused,
           reason := if WellFormed(a) then a.reason else Unknown)
  }

  function CallEnds(c: Controller, a: Answer): Controller {
    if !c.flight.Calling? || c.flight.at >= |c.rows| then c
    else c.(rows := c.rows[c.flight.at := Answered(c.rows[c.flight.at], a)], flight := Recording(c.flight.at))
  }

  // ---- Runs ----

  datatype Process = Down | Up(c: Controller)

  /** What an observer of the calls sees. */
  datatype Entry = Called(tenant: Tenant, purpose: Purpose) | Completed(tenant: Tenant) | Reopened(tenant: Tenant)

  datatype World = World(marker: Marker, process: Process, log: seq<Entry>)

  /** A write that fails may have replaced the marker all the same; a crash in mid-write may too. */
  datatype Event =
    | Boot(tenants: seq<Tenant>, mode: Mode, readable: bool)
    | Crash(replaced: bool)
    | Starts | Ticks | Disposes | Resumes(tenant: Tenant)
    | WriteReturns(ok: bool, replaced: bool)
    | CallReturns(answer: Answer)
    | Corrupts

  function Written(w: World, replaced: bool): Marker {
    if w.process.Up? && Writing(w.process.c) && w.process.c.usable && replaced then Stored(w.process.c.rows)
        else w.marker
  }

  function CallMade(before: Controller, after: Controller): seq<Entry> {
    if before.flight.Announcing? && after.flight.Calling? && after.flight.at < |after.rows| then
      [Called(after.rows[after.flight.at].tenant, after.rows[after.flight.at].purpose)]
    else []
  }

  function CallCompleted(c: Controller, a: Answer): seq<Entry> {
    if c.flight.Calling? && c.flight.at < |c.rows| && Completes(a) then [Completed(c.rows[c.flight.at].tenant)] else []
  }

  function StepUp(w: World, c: Controller, e: Event): World {
    match e
    case Starts => w.(process := Up(Start(c)))
    case Ticks => w.(process := Up(Tick(c)))
    case Disposes => w.(process := Up(Dispose(c)))
    case Resumes(t) => w.(process := Up(Resume(c, t)), log := w.log + if CanResume(c, t) then [Reopened(t)] else [])
    case WriteReturns(ok, replaced) =>
      World(Written(w, ok || replaced), Up(WriteEnds(c, ok)), w.log + CallMade(c, WriteEnds(c, ok)))
    case CallReturns(a) => w.(process := Up(CallEnds(c, a)), log := w.log + CallCompleted(c, a))
    case _ => w
  }

  /** The timer's callback is a tick. A step that is not possible changes nothing. */
  function Step(w: World, e: Event): World {
    if e.Corrupts? then w.(marker := Garbage)
    else if e.Crash? then w.(marker := Written(w, e.replaced), process := Down)
    else if e.Boot? then
      w.(process := if w.process.Down? && Catalogue(e.tenants) then Up(Load(e.tenants, e.mode, w.marker, e.readable))
          else w.process)
    else if w.process.Up? then StepUp(w, w.process.c, e)
    else w
  }

  function Run(w: World, events: seq<Event>): World {
    if events == [] then w else Step(Run(w, events[..|events| - 1]), events[|events| - 1])
  }
}
