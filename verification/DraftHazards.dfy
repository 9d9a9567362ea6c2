/** The steps that the theorems exclude are the right ones: after each of them some run fails. */
module DraftHazards {
  import opened DraftController
  import opened DraftServer
  import opened DraftProtocol
  import opened DraftRuns
  import opened DraftSafety
  import opened DraftOverlaps
  import opened DraftDiscard
  import DraftCounters
  import DraftDisplay
  import DraftTheorems
  import DraftUpdates

  /** What discard safety forbids. */
  ghost predicate Unsafe(me: nat, w: World) {
    ReportsCleared(w.client) && !NotMine(me, w.server)
  }

  // ---- A stop that finds a creating save under way ----

  /** Started again, with `saving` still set: the draft that the save creates is not known. */
  predicate Reopened(s: Client) {
    && IsCurrent(s.c, s.c.epoch) && s.c.known && s.c.saving && !s.c.restoring && !s.c.deleting
    && s.c.view.version == Absent && s.put.NoPut? && s.rem.NoRemoval?
  }

  lemma Reopens(me: nat, w: World)
    requires Regular(me, w) && StopsCreation(me, w, Unmount)
    ensures var t := Step(me, Step(me, w, Unmount), Mount);
      && Reopened(t.client) && t.server == w.server && t.client.c.uncertain == w.client.c.uncertain
      && (w.client.put.PutSent? ==> t.client.stale == [OpPut(Absent, w.client.put.request.snapshot.content, 0)])
  {
  }

  /** A discard does not find the draft. */
  lemma DiscardIgnores(me: nat, w: World)
    requires Reopened(w.client) && !w.client.c.uncertain && !NotMine(me, w.server)
    ensures Unsafe(me, Step(me, Step(me, w, Discard(Absent)), CleanupContinues))
  {
  }

  /** Another session makes way for the save left behind. */
  function Vacates(me: nat, w: World): Event {
    Foreign(me + 1, OpDelete(Current(w.server)))
  }

  lemma Vacated(me: nat, w: World)
    requires Consistent(w.server)
    ensures var t := Step(me, w, Vacates(me, w)); t.server.row.NoRow? && t.client == Quiet(w.client)
    ensures Consistent(Step(me, w, Vacates(me, w)).server)
  {
    ServeConsistent(w.server, me + 1, OpDelete(Current(w.server)));
  }

  /** A creating save is still on its way. */
  predicate LeavesCreation(s: Client) {
    s.stale != [] && s.stale[0].OpPut? && s.stale[0].expected == Absent
  }

  lemma StaleSaveCreates(me: nat, w: World)
    requires w.server.row.NoRow? && LeavesCreation(w.client)
    ensures var t := Step(me, w, ServeStale(0, 0, true));
      !NotMine(me, t.server) && t.client == Quiet(w.client).(stale := w.client.stale[1..])
  {
    assert w.client.stale[..0] + w.client.stale[1..] == w.client.stale[1..];
  }

  // With a write in doubt a discard would find out; a cleanup that names a version of another session does not.

  function Others(me: nat, w: World): Event {
    Foreign(me + 1, OpPut(Absent, EMPTY, 0))
  }

  function Named(w: World): Version {
    Version(w.server.nextGeneration, 1)
  }

  lemma OthersCreate(me: nat, w: World)
    requires w.server.row.NoRow?
    ensures var t := Step(me, w, Others(me, w));
      t.server.row.Row? && Current(t.server) == Named(w) && t.client == Quiet(w.client)
  {
  }

  /** A removal of `v` from the click to the DELETE. */
  lemma CleanupSends(me: nat, w: World, v: Version)
    requires Reopened(w.client) && v != Absent
    ensures var t := Step(me, Step(me, w, Discard(v)), CleanupContinues); var s := t.client;
      && t.server == w.server && s.rem.DeleteSent? && s.rem.version == v && s.rem.request.epoch == s.c.epoch
      && IsCurrent(s.c, s.c.epoch) && s.stale == w.client.stale
  {
  }

  lemma CleanupDeletes(me: nat, w: World)
    requires w.client.rem.DeleteSent? && w.server.row.Row? && Current(w.server) == w.client.rem.version
    ensures var t := Step(me, w, ServeDelete);
      && t.server.row.NoRow? && t.client.rem == DeleteServed(w.client.rem.request, w.client.rem.version, Deleted)
      && t.client.c == w.client.c && t.client.stale == w.client.stale
  {
  }

  lemma CleanupReports(me: nat, w: World)
    requires var s := w.client;
      s.rem.DeleteServed? && s.rem.reply.Deleted? && s.rem.request.epoch == s.c.epoch && IsCurrent(s.c, s.c.epoch)
    ensures var t := Step(me, w, DeliverDelete(Faithful)); t.server == w.server && ReportsCleared(t.client)
  {
  }

  // ---- The runs ----

  const DISCARDING := [Discard(Absent)] + [CleanupContinues]

  lemma DiscardFails(me: nat, w: World)
    requires Reopened(w.client) && !w.client.c.uncertain && !NotMine(me, w.server)
    ensures Unsafe(me, Run(me, w, DISCARDING))
  {
    DiscardIgnores(me, w);
    RunCons(me, w, Discard(Absent), [CleanupContinues]);
    RunOne(me, Step(me, w, Discard(Absent)), CleanupContinues);
  }

  lemma StaleSaveFails(me: nat, w: World) returns (more: seq<Event>)
    requires Reopened(w.client) && !w.client.c.uncertain && Consistent(w.server)
    requires LeavesCreation(w.client)
    ensures Unsafe(me, Run(me, w, more))
  {
    var v := Step(me, w, Vacates(me, w));
    Vacated(me, w);
    StaleSaveCreates(me, v);
    DiscardFails(me, Step(me, v, ServeStale(0, 0, true)));
    more := [Vacates(me, w)] + ([ServeStale(0, 0, true)] + DISCARDING);
    RunCons(me, w, Vacates(me, w), [ServeStale(0, 0, true)] + DISCARDING);
    RunCons(me, v, ServeStale(0, 0, true), DISCARDING);
  }

  const DELETING := [ServeDelete] + ([ServeStale(0, 0, true)] + [DeliverDelete(Faithful)])

  lemma DeleteFails(me: nat, w: World)
    requires var s := w.client;
      && s.rem.DeleteSent? && s.rem.request.epoch == s.c.epoch && IsCurrent(s.c, s.c.epoch)
      && w.server.row.Row? && Current(w.server) == s.rem.version
      && LeavesCreation(s)
    ensures Unsafe(me, Run(me, w, DELETING))
  {
    var a := Step(me, w, ServeDelete);
    var b := Step(me, a, ServeStale(0, 0, true));
    CleanupDeletes(me, w);
    StaleSaveCreates(me, a);
    CleanupReports(me, b);
    RunCons(me, w, ServeDelete, [ServeStale(0, 0, true)] + [DeliverDelete(Faithful)]);
    RunCons(me, a, ServeStale(0, 0, true), [DeliverDelete(Faithful)]);
    RunOne(me, b, DeliverDelete(Faithful));
  }

  lemma CleanupFails(me: nat, w: World, v: Version)
    requires Reopened(w.client) && w.server.row.Row? && Current(w.server) == v != Absent
    requires LeavesCreation(w.client)
    ensures Unsafe(me, Run(me, w, [Discard(v)] + ([CleanupContinues] + DELETING)))
  {
    var a := Step(me, w, Discard(v));
    CleanupSends(me, w, v);
    DeleteFails(me, Step(me, a, CleanupContinues));
    RunCons(me, w, Discard(v), [CleanupContinues] + DELETING);
    RunCons(me, a, CleanupContinues, DELETING);
  }

  lemma StaleSaveFailsInDoubt(me: nat, w: World) returns (more: seq<Event>)
    requires Reopened(w.client) && Consistent(w.server)
    requires LeavesCreation(w.client)
    ensures Unsafe(me, Run(me, w, more))
  {
    var v := Step(me, w, Vacates(me, w));
    Vacated(me, w);
    OthersCreate(me, v);
    CleanupFails(me, Step(me, v, Others(me, v)), Named(v));
    var rest := [Discard(Named(v))] + ([CleanupContinues] + DELETING);
    more := [Vacates(me, w)] + ([Others(me, v)] + rest);
    RunCons(me, w, Vacates(me, w), [Others(me, v)] + rest);
    RunCons(me, v, Others(me, v), rest);
  }

  /** After every stop that finds a creating save under way, some run has a removal report 'cleared' while a
      draft of this controller is stored. */
  lemma StopsCreationFails(me: nat, w: World) returns (more: seq<Event>)
    requires Regular(me, w) && StopsCreation(me, w, Unmount)
    ensures Unsafe(me, Run(me, Step(me, w, Unmount), more))
  {
    var a := Step(me, w, Unmount);
    var t := Step(me, a, Mount);
    Reopens(me, w);
    var rest := DISCARDING;
    if w.client.put.PutServed? { DiscardFails(me, t); }
    else if !w.client.c.uncertain { rest := StaleSaveFails(me, t); }
    else { rest := StaleSaveFailsInDoubt(me, t); }
    more := [Mount] + rest;
    RunCons(me, a, Mount, rest);
  }

  // ---- Denials ----

  /** After every denial of an awaited save over a stored draft, the discard reports 'cleared'. */
  lemma DeniesDiscardFails(me: nat, w: World, e: Event)
    requires Regular(me, w) && DeniesDiscard(me, w, e)
    ensures Unsafe(me, Step(me, Step(me, w, e), CleanupContinues))
  {
  }

  lemma DeniesUnderDiscardFails(me: nat, w: World, e: Event)
    requires Regular(me, w) && DraftUpdates.DeniesUnderDiscard(w.client, e)
    ensures !DraftDisplay.ShowsLatest(Step(me, Step(me, w, e), CleanupContinues).client)
  {
  }

  lemma RebaseServes(me: nat, w: World)
    requires Ledger(me, w) && RebaseMaySucceed(w)
    ensures var t := Step(me, w, ServeRebase(true)).client;
      && t.reb.RebaseServed? && t.reb.reply.Written? && t.reb.request == w.client.reb.request
      && t.c == w.client.c && t.h == w.client.h
  {
  }

  lemma RebaseRevives(me: nat, w: World)
    requires var s := w.client;
      && s.reb.RebaseServed? && s.reb.reply.Written? && IsCurrent(s.c, s.reb.request.epoch)
      && s.c.edit != s.reb.request.submittedEdit && s.c.view.content != s.h.lastUpdate
    ensures !DraftDisplay.ShowsLatest(Step(me, w, DeliverRebase(Faithful)).client)
  {
  }

  lemma DenialEmpties(me: nat, w: World, e: Event)
    requires Regular(me, w) && DraftUpdates.DeniesUnderRebase(w, e)
    ensures var t := Step(me, w, e);
      && t.client.c.view.content == EMPTY && t.client.c.edit == w.client.c.edit && t.client.h.lastUpdate != EMPTY
      && t.client.reb == w.client.reb && t.server == w.server && IsCurrent(t.client.c, t.client.reb.request.epoch)
      && Ledger(me, t)
  {
    StepKeepsLedger(me, w, e);
  }

  /** After every denial that loses an edit, some run shows the empty screen as that edit. */
  lemma LosesEditFails(me: nat, w: World, e: Event) returns (more: seq<Event>)
    requires Regular(me, w) && DraftUpdates.LosesEdit(me, w, e)
    ensures !DraftDisplay.ShowsLatest(Run(me, Step(me, w, e), more).client)
  {
    var t := Step(me, w, e);
    if DraftUpdates.DeniesUnderDiscard(w.client, e) {
      more := [CleanupContinues];
      DeniesUnderDiscardFails(me, w, e);
      RunOne(me, t, CleanupContinues);
    } else {
      more := [ServeRebase(true)] + [DeliverRebase(Faithful)];
      DenialEmpties(me, w, e);
      RebaseServes(me, t);
      RebaseRevives(me, Step(me, t, ServeRebase(true)));
      RunCons(me, t, ServeRebase(true), [DeliverRebase(Faithful)]);
      RunOne(me, Step(me, t, ServeRebase(true)), DeliverRebase(Faithful));
    }
  }

  // ---- A cleanup that names the save it waits for ----

  lemma SaveIsNamed(me: nat, w: World, e: Event)
    requires Regular(me, w) && DraftCounters.NamesSave(me, w, e)
    ensures var t := Step(me, Step(me, w, e), CleanupContinues); var s := t.client;
      && s.rem.DeleteSent? && s.rem.version == Current(t.server) == s.c.view.version
      && IsCurrent(s.c, s.rem.request.epoch) && s.c.savedEdit == s.c.edit != s.rem.request.clearedEdit
      && t.server == w.server && w.server.row.Row?
  {
  }

  lemma ClearsSaved(me: nat, w: World)
    requires var s := w.client;
      && s.rem.DeleteServed? && s.rem.reply.Deleted? && s.rem.version == s.c.view.version
      && IsCurrent(s.c, s.rem.request.epoch) && s.c.savedEdit == s.c.edit != s.rem.request.clearedEdit
    ensures !DraftCounters.CountsEdits(Step(me, w, DeliverDelete(Faithful)).client)
  {
  }

  /** After every such answer, some run leaves a saved edit marked as unsaved. */
  lemma NamesSaveFails(me: nat, w: World, e: Event) returns (more: seq<Event>)
    requires Regular(me, w) && DraftCounters.NamesSave(me, w, e)
    ensures !DraftCounters.CountsEdits(Run(me, Step(me, w, e), more).client)
  {
    var a := Step(me, w, e);
    var b := Step(me, a, CleanupContinues);
    var d := Step(me, b, ServeDelete);
    SaveIsNamed(me, w, e);
    CleanupDeletes(me, b);
    ClearsSaved(me, d);
    more := [CleanupContinues] + ([ServeDelete] + [DeliverDelete(Faithful)]);
    RunCons(me, a, CleanupContinues, [ServeDelete] + [DeliverDelete(Faithful)]);
    RunCons(me, b, ServeDelete, [DeliverDelete(Faithful)]);
    RunOne(me, d, DeliverDelete(Faithful));
  }

  // ---- In runs from the start ----

  lemma RunThen(me: nat, w: World, events: seq<Event>, e: Event, more: seq<Event>)
    ensures Run(me, w, events + ([e] + more)) == Run(me, Step(me, Run(me, w, events), e), more)
  {
    RunOn(me, w, events, [e] + more);
    RunCons(me, Run(me, w, events), e, more);
  }

  lemma RunRegular(me: nat, w: World, events: seq<Event>)
    requires DraftTheorems.Begins(me, w)
    ensures Regular(me, Run(me, w, events))
  {
    DraftTheorems.BeginsInv(me, w);
    DraftTheorems.RunKeepsInv(me, w, events);
  }

  /** Whenever a stop finds a creating save under way, or the save that a discard waits for is denied over a
      stored draft, some continuation breaks discard safety. */
  lemma DiscardHazardFails(me: nat, w: World, events: seq<Event>, e: Event) returns (more: seq<Event>)
    requires DraftTheorems.Begins(me, w)
    requires StopsCreation(me, Run(me, w, events), e) || DeniesDiscard(me, Run(me, w, events), e)
    ensures Unsafe(me, Run(me, w, events + ([e] + more)))
  {
    var t := Run(me, w, events);
    RunRegular(me, w, events);
    if StopsCreation(me, t, e) {
      more := StopsCreationFails(me, t);
    } else {
      more := [CleanupContinues];
      DeniesDiscardFails(me, t, e);
      RunOne(me, Step(me, t, e), CleanupContinues);
    }
    RunThen(me, w, events, e, more);
  }

  /** Whenever a denial empties the screen under a success that is still to come, some continuation shows the
      empty screen as the latest edit. */
  lemma EditHazardFails(me: nat, w: World, events: seq<Event>, e: Event) returns (more: seq<Event>)
    requires DraftTheorems.Begins(me, w) && DraftUpdates.LosesEdit(me, Run(me, w, events), e)
    ensures !DraftDisplay.ShowsLatest(Run(me, w, events + ([e] + more)).client)
  {
    RunRegular(me, w, events);
    more := LosesEditFails(me, Run(me, w, events), e);
    RunThen(me, w, events, e, more);
  }

  /** Whenever a cleanup turns out to name the version of the save it waited for, some continuation leaves a
      saved edit marked as unsaved. */
  lemma CounterHazardFails(me: nat, w: World, events: seq<Event>, e: Event) returns (more: seq<Event>)
    requires DraftTheorems.Begins(me, w) && DraftCounters.NamesSave(me, Run(me, w, events), e)
    ensures !DraftCounters.CountsEdits(Run(me, w, events + ([e] + more)).client)
  {
    RunRegular(me, w, events);
    more := NamesSaveFails(me, Run(me, w, events), e);
    RunThen(me, w, events, e, more);
  }
}
