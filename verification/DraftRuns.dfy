/** Runs of the draft protocol: how they are put together, and what never happens in them. */
module DraftRuns {
  import opened DraftProtocol

  lemma {:induction false} RunOn(me: nat, w: World, first: seq<Event>, more: seq<Event>)
    ensures Run(me, w, first + more) == Run(me, Run(me, w, first), more)
  {
    if more == [] {
      assert first + more == first;
    } else {
      assert (first + more)[..|first + more| - 1] == first + more[..|more| - 1];
      RunOn(me, w, first, more[..|more| - 1]);
    }
  }

  lemma RunOne(me: nat, w: World, e: Event)
    ensures Run(me, w, [e]) == Step(me, w, e)
  {
    assert [e][..0] == [] && Run(me, w, []) == w;
  }

  lemma RunCons(me: nat, w: World, e: Event, more: seq<Event>)
    ensures Run(me, w, [e] + more) == Run(me, Step(me, w, e), more)
  {
    RunOne(me, w, e);
    RunOn(me, w, [e], more);
  }

  /** No step of the run is such a hazard. */
  ghost predicate Never(hazard: (nat, World, Event) -> bool, me: nat, w: World, events: seq<Event>) {
    forall k | 0 <= k < |events| :: !hazard(me, Run(me, w, events[..k]), events[k])
  }

  lemma NeverFront(hazard: (nat, World, Event) -> bool, me: nat, w: World, events: seq<Event>)
    requires events != []
    ensures var front, e := events[..|events| - 1], events[|events| - 1];
      Never(hazard, me, w, events) <==> Never(hazard, me, w, front) && !hazard(me, Run(me, w, front), e)
  {
    var front := events[..|events| - 1];
    forall k | 0 <= k < |front|
      ensures hazard(me, Run(me, w, front[..k]), front[k]) == hazard(me, Run(me, w, events[..k]), events[k])
    {
      assert front[..k] == events[..k] && front[k] == events[k];
    }
    if Never(hazard, me, w, events) {
      assert !hazard(me, Run(me, w, events[..|front|]), events[|front|]);
      forall k | 0 <= k < |front| ensures !hazard(me, Run(me, w, front[..k]), front[k]) {
        assert !hazard(me, Run(me, w, events[..k]), events[k]);
      }
    }
    if Never(hazard, me, w, front) && !hazard(me, Run(me, w, front), events[|front|]) {
      forall k | 0 <= k < |events| ensures !hazard(me, Run(me, w, events[..k]), events[k]) {
        if k < |front| { assert !hazard(me, Run(me, w, front[..k]), front[k]); }
      }
    }
  }

  lemma NeverSnoc(hazard: (nat, World, Event) -> bool, me: nat, w: World, events: seq<Event>, e: Event)
    ensures Never(hazard, me, w, events + [e]) <==> Never(hazard, me, w, events) && !hazard(me, Run(me, w, events), e)
  {
    assert (events + [e])[..|events|] == events;
    NeverFront(hazard, me, w, events + [e]);
  }
}
