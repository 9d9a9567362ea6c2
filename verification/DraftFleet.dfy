/** Any number of draft controllers over one server. */
module DraftFleet {
  import opened DraftController
  import opened DraftServer
  import opened DraftProtocol
  import opened DraftRuns
  import opened DraftSafety
  import opened DraftOverlaps
  import DraftCounters
  import DraftDiscard
  import DraftDisplay
  import DraftOutdated
  import DraftReplies
  import DraftUpdates
  import opened DraftTheorems

  datatype Fleet = Fleet(server: Server, clients: seq<Client>)

  /** A step of one controller, or of the server on its behalf. */
  datatype Turn = Turn(who: nat, event: Event)

  function Seen(f: Fleet, i: nat): World
    requires i < |f.clients|
  {
    World(f.server, f.clients[i])
  }

  /** `Foreign` steps are sessions outside the fleet; their authors are not numbered within it. */
  predicate Possible(f: Fleet, t: Turn) {
    t.who < |f.clients| && (t.event.Foreign? ==> t.event.who >= |f.clients|)
  }

  function FleetStep(f: Fleet, t: Turn): Fleet {
    if !Possible(f, t) then f else
    var w := Step(t.who, Seen(f, t.who), t.event);
    Fleet(w.server, f.clients[t.who := w.client])
  }

  function FleetRun(f: Fleet, turns: seq<Turn>): Fleet {
    if turns == [] then f else FleetStep(FleetRun(f, turns[..|turns| - 1]), turns[|turns| - 1])
  }

  /** The request that a step of the server deals with. */
  function RequestOf(w: World, e: Event): Op {
    match e
    case ServePut(base) => if w.client.put.PutSent? then PutOp(w.client.put.request, base) else OpDelete(Absent)
    case ServeRebase(upToDate) =>
      if w.client.reb.RebaseSent? then
        OpRebase(w.client.reb.request.version, w.client.reb.request.reviewed, upToDate)
      else OpDelete(Absent)
    case ServeDelete => if w.client.rem.DeleteSent? then OpDelete(w.client.rem.version) else OpDelete(Absent)
    case ServeStale(index, base, upToDate) =>
      if index < |w.client.stale| then Arrives(w.client.stale[index], base, upToDate) else OpDelete(Absent)
    case Foreign(_, op) => op
    case _ => OpDelete(Absent)
  }

  /** A step changes the server by at most one request, in the name of its sender. */
  lemma OneRequest(me: nat, w: World, e: Event)
    ensures var who := if e.Foreign? then e.who else me;
      Step(me, w, e).server == w.server || Step(me, w, e).server == Serve(w.server, who, RequestOf(w, e))
  {
  }

  lemma InvIgnoresVerdict(me: nat, server: Server, s: Client)
    ensures Inv(me, World(server, Quiet(s))) == Inv(me, World(server, s))
  {
    var w, q := World(server, s), World(server, Quiet(s));
    assert Ledger(me, q) == Ledger(me, w);
    assert Overlaps(q) == Overlaps(w) && DraftReplies.Held(q) == DraftReplies.Held(w);
  }

  lemma ForeignStep(me: nat, other: nat, w: World, op: Op)
    requires other != me
    ensures Step(me, w, Foreign(other, op)) == World(Serve(w.server, other, op), Quiet(w.client))
  {
  }

  /** What one controller does is, to any other, a change made by another session. */
  lemma OthersKeepInv(me: nat, other: nat, before: Server, s: Client, op: Op)
    requires other != me && Inv(me, World(before, s))
    ensures Inv(me, World(Serve(before, other, op), s))
  {
    StepKeepsInv(me, World(before, s), Foreign(other, op));
    ForeignStep(me, other, World(before, s), op);
    InvIgnoresVerdict(me, Serve(before, other, op), s);
  }

  ghost predicate AllInv(f: Fleet) {
    forall i: nat | i < |f.clients| :: Inv(i, Seen(f, i))
  }

  lemma FleetStepKeepsInv(f: Fleet, t: Turn)
    requires AllInv(f)
    ensures AllInv(FleetStep(f, t))
  {
    if Possible(f, t) {
      var w := Seen(f, t.who);
      var g := FleetStep(f, t);
      StepKeepsInv(t.who, w, t.event);
      var who, op := if t.event.Foreign? then t.event.who else t.who, RequestOf(w, t.event);
      OneRequest(t.who, w, t.event);
      forall i: nat | i < |g.clients| ensures Inv(i, Seen(g, i)) {
        if i == t.who {
          assert Seen(g, i) == Step(t.who, w, t.event);
        } else {
          assert Inv(i, Seen(f, i)) && g.clients[i] == f.clients[i];
          OthersKeepInv(i, who, f.server, f.clients[i], op);
        }
      }
    }
  }

  /** New controllers over a server none of them has written on. */
  ghost predicate FleetBegins(f: Fleet) {
    forall i: nat | i < |f.clients| :: Begins(i, Seen(f, i))
  }

  lemma {:induction false} FleetKeepsInv(f: Fleet, turns: seq<Turn>)
    requires FleetBegins(f)
    ensures AllInv(FleetRun(f, turns))
  {
    if turns == [] {
      forall i: nat | i < |f.clients| ensures Inv(i, Seen(f, i)) { BeginsInv(i, Seen(f, i)); }
    } else {
      FleetKeepsInv(f, turns[..|turns| - 1]);
      FleetStepKeepsInv(FleetRun(f, turns[..|turns| - 1]), turns[|turns| - 1]);
    }
  }

  /** In a chain without repetitions a version is replaced at most once. */
  lemma ReplacedOnce(s: Server, i: nat, j: nat)
    requires SingleChain(s) && CommittedOnce(s)
    requires i < j < |s.chain| && s.chain[j].before != Absent
    ensures s.chain[i].before != s.chain[j].before
  {
    assert s.chain[i].before == LeftBy(s.chain[..i]) && s.chain[j].before == LeftBy(s.chain[..j]);
    if i > 0 { assert s.chain[i - 1].after != s.chain[j - 1].after; }
  }

  /** All controllers of the fleet together commit one chain of versions in which none comes twice and
      none is replaced twice, and every PUT replaced exactly a version, or an absence, that its sender
      had received in a reply. */
  lemma FleetCommitsOneChain(f: Fleet, turns: seq<Turn>)
    requires FleetBegins(f) && |f.clients| > 0
    ensures var t := FleetRun(f, turns);
      && SingleChain(t.server) && CommittedOnce(t.server)
      && (forall i, j | 0 <= i < j < |t.server.chain| && t.server.chain[j].before != Absent ::
          t.server.chain[i].before != t.server.chain[j].before)
      && (forall k | 0 <= k < |t.server.chain| && t.server.chain[k].put && t.server.chain[k].who < |t.clients| ::
            t.server.chain[k].before in t.clients[t.server.chain[k].who].h.receipts)
  {
    var t := FleetRun(f, turns);
    FleetKeepsInv(f, turns);
    FleetSize(f, turns);
    assert Inv(0, Seen(t, 0));
    forall i: nat, j: nat | i < j < |t.server.chain| && t.server.chain[j].before != Absent
      ensures t.server.chain[i].before != t.server.chain[j].before
    {
      ReplacedOnce(t.server, i, j);
    }
    forall k: nat | k < |t.server.chain| && t.server.chain[k].put && t.server.chain[k].who < |t.clients|
      ensures t.server.chain[k].before in t.clients[t.server.chain[k].who].h.receipts
    {
      assert Inv(t.server.chain[k].who, Seen(t, t.server.chain[k].who));
    }
  }

  lemma {:induction false} FleetSize(f: Fleet, turns: seq<Turn>)
    ensures |FleetRun(f, turns).clients| == |f.clients|
  {
    if turns != [] { FleetSize(f, turns[..|turns| - 1]); }
  }

  // ---- Each controller of the fleet has a run of its own ----

  /** What a turn of another is to controller `i`. */
  function Echo(w: World, who: nat, e: Event): seq<Event> {
    if Step(who, w, e).server == w.server then [] else [Foreign(if e.Foreign? then e.who else who, RequestOf(w, e))]
  }

  /** The run of controller `i` within a run of the fleet. */
  function Own(f: Fleet, turns: seq<Turn>, i: nat): seq<Event> {
    if turns == [] then []
    else
      var front, t := turns[..|turns| - 1], turns[|turns| - 1];
      var before := FleetRun(f, front);
      if !Possible(before, t) then Own(f, front, i)
      else Own(f, front, i) + if t.who == i then [t.event] else Echo(Seen(before, t.who), t.who, t.event)
  }

  /** The same, but for what the last step of the controller answered. */
  predicate Alike(w: World, v: World) {
    w.server == v.server && Quiet(w.client) == Quiet(v.client)
  }

  lemma AlikeStep(me: nat, w: World, v: World, e: Event)
    requires Alike(w, v)
    ensures Step(me, w, e) == Step(me, v, e)
  {
  }

  lemma EchoIsForeign(me: nat, who: nat, w: World, v: World, e: Event)
    requires w.server == v.server && me != who && (e.Foreign? ==> e.who != me)
    ensures Alike(Run(me, w, Echo(v, who, e)), World(Step(who, v, e).server, w.client))
  {
    OneRequest(who, v, e);
    if Echo(v, who, e) != [] { RunOne(me, w, Echo(v, who, e)[0]); }
  }

  lemma {:induction false} OwnRun(f: Fleet, turns: seq<Turn>, i: nat)
    requires i < |f.clients|
    ensures |FleetRun(f, turns).clients| == |f.clients|
    ensures Alike(Run(i, Seen(f, i), Own(f, turns, i)), Seen(FleetRun(f, turns), i))
  {
    FleetSize(f, turns);
    if turns != [] {
      var front, t := turns[..|turns| - 1], turns[|turns| - 1];
      var before, w := FleetRun(f, front), Run(i, Seen(f, i), Own(f, front, i));
      OwnRun(f, front, i);
      if Possible(before, t) {
        if t.who == i {
          RunOn(i, Seen(f, i), Own(f, front, i), [t.event]);
          RunOne(i, w, t.event);
          AlikeStep(i, w, Seen(before, i), t.event);
        } else {
          RunOn(i, Seen(f, i), Own(f, front, i), Echo(Seen(before, t.who), t.who, t.event));
          EchoIsForeign(i, t.who, w, Seen(before, t.who), t.event);
        }
      }
    }
  }

  /** A hazard is a matter of the controller's own steps, whatever its last step answered. */
  ghost predicate OwnHazard(hazard: (nat, World, Event) -> bool) {
    && (forall me, w, e :: hazard(me, w, e) ==> !e.Foreign?)
    && (forall me, w, v, e :: Alike(w, v) ==> hazard(me, w, e) == hazard(me, v, e))
  }

  lemma HazardsAreOwn()
    ensures OwnHazard(DraftDiscard.StopsCreation) && OwnHazard(DraftDiscard.DeniesDiscard)
    ensures OwnHazard(DraftUpdates.LosesEdit) && OwnHazard(DraftCounters.NamesSave)
    ensures OwnHazard(DraftOutdated.OutdatesIn)
  {
  }

  ghost predicate FleetNever(hazard: (nat, World, Event) -> bool, f: Fleet, turns: seq<Turn>, i: nat) {
    forall k | 0 <= k < |turns| && turns[k].who == i && Possible(FleetRun(f, turns[..k]), turns[k]) ::
      !hazard(i, Seen(FleetRun(f, turns[..k]), i), turns[k].event)
  }

  lemma FleetNeverFront(hazard: (nat, World, Event) -> bool, f: Fleet, turns: seq<Turn>, i: nat)
    requires turns != [] && FleetNever(hazard, f, turns, i)
    ensures var front, t := turns[..|turns| - 1], turns[|turns| - 1];
      && FleetNever(hazard, f, front, i)
      && (t.who == i && Possible(FleetRun(f, front), t) ==> !hazard(i, Seen(FleetRun(f, front), i), t.event))
  {
    var front := turns[..|turns| - 1];
    forall k | 0 <= k < |front| && front[k].who == i && Possible(FleetRun(f, front[..k]), front[k])
      ensures !hazard(i, Seen(FleetRun(f, front[..k]), i), front[k].event)
    {
      assert front[..k] == turns[..k] && front[k] == turns[k];
    }
  }

  lemma {:induction false} OwnNever(hazard: (nat, World, Event) -> bool, f: Fleet, turns: seq<Turn>, i: nat)
    requires i < |f.clients| && OwnHazard(hazard) && FleetNever(hazard, f, turns, i)
    ensures Never(hazard, i, Seen(f, i), Own(f, turns, i))
  {
    if turns != [] {
      var front, t := turns[..|turns| - 1], turns[|turns| - 1];
      var before := FleetRun(f, front);
      FleetNeverFront(hazard, f, turns, i);
      OwnNever(hazard, f, front, i);
      OwnRun(f, front, i);
      if Possible(before, t) {
        if t.who == i {
          NeverOwn(hazard, i, Seen(f, i), Own(f, front, i), Seen(before, i), t.event);
        } else {
          NeverEcho(hazard, i, Seen(f, i), Own(f, front, i), Echo(Seen(before, t.who), t.who, t.event));
        }
      }
    }
  }

  lemma NeverOwn(hazard: (nat, World, Event) -> bool, me: nat, w: World, events: seq<Event>, v: World, e: Event)
    requires OwnHazard(hazard) && Never(hazard, me, w, events) && Alike(Run(me, w, events), v) && !hazard(me, v, e)
    ensures Never(hazard, me, w, events + [e])
  {
    NeverSnoc(hazard, me, w, events, e);
  }

  lemma NeverEcho(hazard: (nat, World, Event) -> bool, me: nat, w: World, events: seq<Event>, echo: seq<Event>)
    requires OwnHazard(hazard) && Never(hazard, me, w, events)
    requires echo == [] || (|echo| == 1 && echo[0].Foreign?)
    ensures Never(hazard, me, w, events + echo)
  {
    if echo == [] { assert events + echo == events; }
    else { NeverSnoc(hazard, me, w, events, echo[0]); assert echo == [echo[0]]; }
  }

  /** A run of the fleet that ends with a turn of controller `i` is a run of that controller alone, with the
      others for its environment. */
  lemma LastOwnTurn(f: Fleet, turns: seq<Turn>, t: Turn)
    requires Possible(FleetRun(f, turns), t)
    ensures t.who < |f.clients| && t.who < |FleetRun(f, turns + [t]).clients|
    ensures Own(f, turns + [t], t.who) == Own(f, turns, t.who) + [t.event]
    ensures Run(t.who, Seen(f, t.who), Own(f, turns + [t], t.who)) == Seen(FleetRun(f, turns + [t]), t.who)
    ensures FleetRun(f, turns + [t]) == FleetStep(FleetRun(f, turns), t)
  {
    FleetSize(f, turns);
    FleetSize(f, turns + [t]);
    assert (turns + [t])[..|turns|] == turns;
    OwnRun(f, turns, t.who);
    var w := Run(t.who, Seen(f, t.who), Own(f, turns, t.who));
    RunOn(t.who, Seen(f, t.who), Own(f, turns, t.who), [t.event]);
    RunOne(t.who, w, t.event);
    AlikeStep(t.who, w, Seen(FleetRun(f, turns), t.who), t.event);
  }

  /** A removal of the fleet that reports 'cleared' leaves nothing of its controller. */
  lemma FleetDiscardSafety(f: Fleet, turns: seq<Turn>, t: Turn)
    requires FleetBegins(f) && Possible(FleetRun(f, turns), t)
    requires FleetNever(DraftDiscard.StopsCreation, f, turns + [t], t.who)
    ensures t.who < |FleetRun(f, turns + [t]).clients|
    ensures var before, g := FleetRun(f, turns).clients[t.who], FleetRun(f, turns + [t]);
      && g.clients[t.who].verdict == Resolved(Cleared)
      && ((t.event.CleanupContinues? ==> before.c.known) ||
          FleetNever(DraftDiscard.DeniesDiscard, f, turns + [t], t.who))
      ==> DraftDiscard.NotMine(t.who, g.server)
  {
    var all, i := turns + [t], t.who;
    LastOwnTurn(f, turns, t);
    HazardsAreOwn();
    OwnRun(f, turns, i);
    OwnNever(DraftDiscard.StopsCreation, f, all, i);
    if FleetNever(DraftDiscard.DeniesDiscard, f, all, i) { OwnNever(DraftDiscard.DeniesDiscard, f, all, i); }
    assert Own(f, all, i)[..|Own(f, all, i)| - 1] == Own(f, turns, i);
    DiscardSafety(i, Seen(f, i), Own(f, all, i));
  }

  /** The screen and the counters of every controller of the fleet tell what is unsaved. */
  lemma FleetShowsEdits(f: Fleet, turns: seq<Turn>, t: Turn)
    requires FleetBegins(f) && Possible(FleetRun(f, turns), t)
    ensures t.who < |FleetRun(f, turns + [t]).clients|
    ensures var s := FleetRun(f, turns + [t]).clients[t.who];
      && Level(s)
      && (FleetNever(DraftCounters.NamesSave, f, turns + [t], t.who) ==> DraftCounters.CountsEdits(s))
      && (FleetNever(DraftUpdates.LosesEdit, f, turns + [t], t.who) ==> DraftDisplay.ShowsLatest(s))
      && (FleetNever(DraftOutdated.OutdatesIn, f, turns + [t], t.who) ==> DraftReplies.ShowsReply(s))
      && (s.verdict == Flushed(true) ==> Pending !in s.h.fates)
  {
    LastOwnTurn(f, turns, t);
    var all, i := turns + [t], t.who;
    var w, own := Seen(f, i), Own(f, all, i);
    HazardsAreOwn();
    CountersTellUnsaved(i, w, own);
    FlushLeavesNothingPending(i, w, own);
    if FleetNever(DraftCounters.NamesSave, f, all, i) { OwnNever(DraftCounters.NamesSave, f, all, i); }
    if FleetNever(DraftUpdates.LosesEdit, f, all, i) {
      OwnNever(DraftUpdates.LosesEdit, f, all, i);
      NoEditIsLost(i, w, own);
    }
    if FleetNever(DraftOutdated.OutdatesIn, f, all, i) {
      OwnNever(DraftOutdated.OutdatesIn, f, all, i);
      ShowsReplyAtEnd(i, w, own);
    }
  }

  lemma ShowsReplyAtEnd(me: nat, w: World, events: seq<Event>)
    requires Begins(me, w) && Never(DraftOutdated.OutdatesIn, me, w, events)
    ensures DraftReplies.ShowsReply(Run(me, w, events).client)
  {
    ShowsReplyExactly(me, w, events);
    assert ShowsReplyAt(me, w, events, |events|);
    EndShowsReply(me, w, events);
  }
}
