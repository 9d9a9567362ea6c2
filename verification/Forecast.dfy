/** The forecast from end to end: order the graph, schedule it, then measure the slack. */
module Forecast {
  import opened ForecastGraph
  import opened ForecastSchedule
  import opened Forecaster
  import opened CriticalPath

  /** `NoNodes`: the maximum of an empty list of finishes. */
  datatype Forecast =
    | Refused(obstacle: Outcome)
    | TooShort(plan: Plan)
    | NoNodes
    | Forecast(log: Log, terminal: int, finish: map<int, int>, latest: map<int, int>)

  ghost predicate Sound(g: Graph, calendar: nat, f: Forecast) {
    match f
    case Refused(obstacle) => !obstacle.Ordered? && Explains(g, obstacle)
    case TooShort(plan) => plan.CalendarExhausted? && Answers(g, calendar, plan)
    case NoNodes => forall n :: n !in g.node
    case Forecast(log, terminal, finish, latest) =>
      Answers(g, calendar, Planned(log)) && ExactSlack(g, terminal, finish, latest)
  }

  method Calculate(g: Graph, calendar: nat) returns (f: Forecast)
    requires Valid(g)
    ensures Sound(g, calendar, f)
  {
    var search := new TopologicalSort(g);
    var found := search.Sort();
    if !found.Ordered? { return Refused(found); }
    var plan := Schedule(g, calendar, found.order);
    if plan.CalendarExhausted? { return TooShort(plan); }
    if found.order == [] { return NoNodes; }
    var terminal, finish, latest := Pass(g, found.order);
    f := Forecast(plan.log, terminal, finish, latest);
  }
}
