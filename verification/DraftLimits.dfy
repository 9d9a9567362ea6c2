/** Runs that show where the draft controller falls short of its promises. */
module DraftLimits {
  import opened DraftController
  import opened DraftServer
  import opened DraftProtocol
  import opened DraftRuns
  import DraftAutosave
  import DraftCounters
  import DraftDiscard
  import DraftDisplay
  import DraftHazards
  import DraftReplies
  import DraftStranded
  import DraftTheorems
  import DraftUpdates

  const NOTE := Content(Public, [72], Markdown, [], [])
  const LETTER := Content(Public, [72, 105], Markdown, [], [])

  const ORIGIN := World(EMPTY_SERVER, NewClient(true))

  /** A mounted controller with the given session state and nothing under way. */
  function Settled(server: Server, dirty: bool, edit: nat, savedEdit: nat, timer: bool, view: View, h: History): World {
    World(server, Client(
      Control(true, 1, true, true, false, dirty, false, edit, savedEdit, timer, false, false, false, view),
      NoGet, NoPut, NoRebase, NoRemoval, [], h, NoVerdict))
  }

  function Remembers(lastUpdate: Content, lastReply: Content, receipts: set<Version>, fates: seq<Fate>): History {
    History(lastUpdate, lastReply, receipts, fates, false, false, true)
  }

  const OPENED := Settled(EMPTY_SERVER, false, 0, 0, false, EmptyView(Idle), Remembers(EMPTY, EMPTY, {Absent}, []))

  const OPENING := [Mount] + ([ServeGet] + ([DeliverGet(Faithful)] + []))

  lemma Opens()
    ensures Run(0, ORIGIN, OPENING) == OPENED
  {
    var a := Step(0, ORIGIN, Mount);
    var b := Step(0, a, ServeGet);
    assert a.client.get == GetSent(1) && b.client.get == GetServed(1, ReadNothing);
    RunCons(0, ORIGIN, Mount, [ServeGet] + ([DeliverGet(Faithful)] + []));
    RunCons(0, a, ServeGet, [DeliverGet(Faithful)] + []);
    RunCons(0, b, DeliverGet(Faithful), []);
  }

  const NOTE_ROW := Server(Row(Stored(Version(0, 1), NOTE, 0), 0), 1, {}, [Commit(0, true, Absent, Version(0, 1))])

  const NOTE_SAVED := Settled(NOTE_ROW, false, 1, 1, false, View(NOTE, 0, Saved, Version(0, 1)),
                             Remembers(NOTE, NOTE, {Absent, Version(0, 1)}, [Acknowledged]))

  const TYPING := [Edit(NOTE, 0)] + ([TimerFires] + [])

  const SAVE_SENT := World(EMPTY_SERVER, Client(
    Control(true, 1, true, true, false, true, false, 1, 0, false, true, false, false,
        View(NOTE, 0, Status.Saving, Absent)),
    NoGet, PutSent(PutRequest(1, View(NOTE, 0, Unsaved, Absent), 1)), NoRebase, NoRemoval, [],
    Remembers(NOTE, EMPTY, {Absent}, [Pending]), NoVerdict))

  lemma Types()
    ensures Run(0, OPENED, TYPING) == SAVE_SENT
  {
    var a := Step(0, OPENED, Edit(NOTE, 0));
    assert a == Settled(EMPTY_SERVER, true, 1, 0, true, View(NOTE, 0, Unsaved, Absent),
        Remembers(NOTE, EMPTY, {Absent}, [Pending]));
    RunCons(0, OPENED, Edit(NOTE, 0), [TimerFires] + []);
    RunCons(0, a, TimerFires, []);
  }

  const STORING := [ServePut(0)] + ([DeliverPut(Faithful)] + [])

  lemma Stores()
    ensures Run(0, SAVE_SENT, STORING) == NOTE_SAVED
  {
    var a := Step(0, SAVE_SENT, ServePut(0));
    assert a.client.put == PutServed(SAVE_SENT.client.put.request, Written(NOTE_ROW.row.stored));
    assert a.server == NOTE_ROW;
    RunCons(0, SAVE_SENT, ServePut(0), [DeliverPut(Faithful)] + []);
    RunCons(0, a, DeliverPut(Faithful), []);
    assert Settle([Pending], 1, Acknowledged) == [Acknowledged];
    assert {Absent} + {Version(0, 1)} == {Absent, Version(0, 1)};
  }

  // From the start to a stored note, and on to a letter that is being saved over it.

  const SAVING := OPENING + (TYPING + STORING)

  lemma Saves()
    ensures Run(0, ORIGIN, SAVING) == NOTE_SAVED
  {
    Opens();
    Types();
    Stores();
    RunOn(0, ORIGIN, OPENING, TYPING + STORING);
    RunOn(0, OPENED, TYPING, STORING);
  }

  const RETYPING := [Edit(LETTER, 0)] + ([TimerFires] + [])

  const RESENT := PutRequest(1, View(LETTER, 0, Unsaved, Version(0, 1)), 2)

  const LETTER_SENT := World(NOTE_ROW, Client(
    Control(true, 1, true, true, false, true, false, 2, 1, false, true, false, false,
        View(LETTER, 0, Status.Saving, Version(0, 1))),
    NoGet, PutSent(RESENT), NoRebase, NoRemoval, [],
    Remembers(LETTER, NOTE, {Absent, Version(0, 1)}, [Acknowledged, Pending]), NoVerdict))

  lemma Retypes()
    ensures Run(0, NOTE_SAVED, RETYPING) == LETTER_SENT
  {
    var a := Step(0, NOTE_SAVED, Edit(LETTER, 0));
    assert a == Settled(NOTE_ROW, true, 2, 1, true, View(LETTER, 0, Unsaved, Version(0, 1)),
                        Remembers(LETTER, NOTE, {Absent, Version(0, 1)}, [Acknowledged, Pending]));
    RunCons(0, NOTE_SAVED, Edit(LETTER, 0), [TimerFires] + []);
    RunCons(0, a, TimerFires, []);
  }

  const RESAVING := SAVING + RETYPING

  lemma Resaves()
    ensures Run(0, ORIGIN, RESAVING) == LETTER_SENT
  {
    Saves();
    Retypes();
    RunOn(0, ORIGIN, SAVING, RETYPING);
  }

  // A discard that waits for that save, which is denied.

  const DISCARD_WAITS := World(NOTE_ROW, Client(
    Control(true, 1, true, true, false, true, false, 2, 1, false, true, true, false,
        View(LETTER, 0, Status.Saving, Version(0, 1))),
    NoGet, PutSent(RESENT), NoRebase, Waiting(Removal(1, 2, Absent)), [],
    Remembers(LETTER, NOTE, {Absent, Version(0, 1)}, [Acknowledged, Pending]), NoVerdict))

  lemma Discards()
    ensures Run(0, LETTER_SENT, [Discard(Absent)]) == DISCARD_WAITS
  {
    RunOne(0, LETTER_SENT, Discard(Absent));
  }

  const EDITED_WAITING := World(NOTE_ROW, Client(
    Control(true, 1, true, true, false, true, false, 3, 1, false, true, true, false,
        View(NOTE, 0, Unsaved, Version(0, 1))),
    NoGet, PutSent(RESENT), NoRebase, Waiting(Removal(1, 2, Absent)), [],
    Remembers(NOTE, NOTE, {Absent, Version(0, 1)}, [Acknowledged, Pending, Pending]), NoVerdict))

  lemma EditsWaiting()
    ensures Run(0, DISCARD_WAITS, [Edit(NOTE, 0)]) == EDITED_WAITING
  {
    RunOne(0, DISCARD_WAITS, Edit(NOTE, 0));
  }

  const DENIED := World(NOTE_ROW, Client(
    Control(true, 1, true, false, false, false, false, 3, 1, false, false, true, false, EmptyView(Error)),
    NoGet, NoPut, NoRebase, Waiting(Removal(1, 2, Absent)), [],
    History(NOTE, NOTE, {Absent, Version(0, 1)}, [Acknowledged, Dropped, Dropped], true, false, true),
    NoVerdict))

  lemma Denies()
    ensures Run(0, EDITED_WAITING, [DeliverPut(Refused)]) == DENIED
  {
    RunOne(0, EDITED_WAITING, DeliverPut(Refused));
    assert Settle([Acknowledged, Pending, Pending], 3, Dropped) == [Acknowledged, Dropped, Dropped];
  }

  /** A discard that waits for a save whose reply is a denial reports 'cleared' without a DELETE, and
      marks the emptied screen as the unsaved edit. */
  lemma ClearsWithoutDelete()
    ensures var t := Run(0, DENIED, [CleanupContinues]);
      && t.client.verdict == Resolved(Cleared) && t.server == NOTE_ROW && !t.client.h.leftover
      && t.client.c.dirty && t.client.c.view.content == EMPTY && t.client.h.lastUpdate == NOTE
  {
    RunOne(0, DENIED, CleanupContinues);
  }

  const DENIAL := [Discard(Absent)] + ([Edit(NOTE, 0)] + ([DeliverPut(Refused)] + [CleanupContinues]))

  lemma DeniedWhileWaiting()
    ensures Run(0, LETTER_SENT, DENIAL) == Run(0, DENIED, [CleanupContinues])
  {
    Discards();
    EditsWaiting();
    Denies();
    RunOn(0, LETTER_SENT, [Discard(Absent)], [Edit(NOTE, 0)] + ([DeliverPut(Refused)] + [CleanupContinues]));
    RunOn(0, DISCARD_WAITS, [Edit(NOTE, 0)], [DeliverPut(Refused)] + [CleanupContinues]);
    RunOn(0, EDITED_WAITING, [DeliverPut(Refused)], [CleanupContinues]);
  }

  /** Discard safety and the display of the latest edit both fail after a denied reply. */
  lemma DenialBreaksDiscardAndDisplay() returns (w: World, events: seq<Event>)
    ensures DraftTheorems.Begins(0, w) && events != []
    ensures var t := Run(0, w, events);
      && t.client.verdict == Resolved(Cleared) && !t.client.h.leftover && !DraftDiscard.NotMine(0, t.server)
      && !DraftDisplay.ShowsLatest(t.client)
  {
    w, events := ORIGIN, RESAVING + DENIAL;
    Resaves();
    DeniedWhileWaiting();
    ClearsWithoutDelete();
    RunOn(0, ORIGIN, RESAVING, DENIAL);
  }

  // A rebase under way, an edit behind it, and a discard whose DELETE is denied before the rebase is answered.

  const REVIEWED := RebaseRequest(1, Version(0, 1), 0, 1)

  const DELETE_TRIED := World(NOTE_ROW, Client(
    Control(true, 1, true, true, false, true, false, 2, 1, false, false, true, true,
        View(LETTER, 0, Unsaved, Version(0, 1))),
    NoGet, NoPut, RebaseSent(REVIEWED), DeleteSent(Removal(1, 2, Absent), Version(0, 1)), [],
    Remembers(LETTER, NOTE, {Absent, Version(0, 1)}, [Acknowledged, Pending]), NoVerdict))

  const OVERTAKING := [Review(0)] + ([Edit(LETTER, 0)] + [Discard(Absent)])

  lemma Overtakes()
    ensures Run(0, NOTE_SAVED, OVERTAKING) == DELETE_TRIED
  {
    var a := Step(0, NOTE_SAVED, Review(0));
    var b := Step(0, a, Edit(LETTER, 0));
    assert a.client.reb == RebaseSent(REVIEWED);
    assert b.client.c.edit == 2 && b.client.c.view == DELETE_TRIED.client.c.view;
    RunCons(0, NOTE_SAVED, Review(0), [Edit(LETTER, 0)] + [Discard(Absent)]);
    RunCons(0, a, Edit(LETTER, 0), [Discard(Absent)]);
    RunOne(0, b, Discard(Absent));
  }

  /** A DELETE that is denied over such a rebase loses the edit: some run then marks the emptied screen as it. */
  lemma DenialUnderRebaseBreaksDisplay() returns (w: World, events: seq<Event>, more: seq<Event>)
    ensures DraftTheorems.Begins(0, w) && DraftUpdates.DeniesUnderRebase(Run(0, w, events), DeliverDelete(Refused))
    ensures !DraftDisplay.ShowsLatest(Run(0, w, events + ([DeliverDelete(Refused)] + more)).client)
  {
    w, events := ORIGIN, SAVING + OVERTAKING;
    Saves();
    Overtakes();
    RunOn(0, ORIGIN, SAVING, OVERTAKING);
    more := DraftHazards.EditHazardFails(0, w, events, DeliverDelete(Refused));
  }

  const LOSING := [DeliverPut(Lost)] + ([Edit(LETTER, 0)] + [])

  const SAVE_LOST := World(EMPTY_SERVER, Client(
    Control(true, 1, true, true, false, true, true, 2, 0, true, false, false, false, View(LETTER, 0, Unsaved, Absent)),
    NoGet, NoPut, NoRebase, NoRemoval, [], Remembers(LETTER, EMPTY, {Absent}, [Pending, Pending]), NoVerdict))

  lemma LosesSave()
    ensures Run(0, SAVE_SENT, LOSING) == SAVE_LOST
  {
    var a := Step(0, SAVE_SENT, DeliverPut(Lost));
    assert a == World(EMPTY_SERVER, Client(
      Control(true, 1, true, true, false, true, true, 1, 0, false, false, false, false, View(NOTE, 0, Error, Absent)),
      NoGet, NoPut, NoRebase, NoRemoval, [], Remembers(NOTE, EMPTY, {Absent}, [Pending]), NoVerdict));
    RunCons(0, SAVE_SENT, DeliverPut(Lost), [Edit(LETTER, 0)] + []);
    RunCons(0, a, Edit(LETTER, 0), []);
  }

  const FAILING := [Discard(Absent)] + ([CleanupSettles] + [])

  lemma FailsToDiscard()
    ensures var t := Run(0, SAVE_LOST, FAILING).client; DraftAutosave.Stalled(t) && CanSave(t.c)
  {
    var a := Step(0, SAVE_LOST, Discard(Absent));
    assert a.client.rem == Finished(Removal(1, 2, Absent), Errored);
    assert a.client.c == SAVE_LOST.client.c.(timer := false, deleting := true);
    RunCons(0, SAVE_LOST, Discard(Absent), [CleanupSettles] + []);
    RunCons(0, a, CleanupSettles, []);
  }

  /** A removal that ends in error cancels the timer and leaves unsaved work without one. */
  lemma FailedRemovalStallsAutosave() returns (w: World, events: seq<Event>)
    ensures DraftTheorems.Begins(0, w)
    ensures var t := Run(0, w, events).client; DraftAutosave.Stalled(t) && CanSave(t.c)
  {
    w, events := ORIGIN, OPENING + (TYPING + (LOSING + FAILING));
    Opens();
    Types();
    LosesSave();
    FailsToDiscard();
    RunOn(0, ORIGIN, OPENING, TYPING + (LOSING + FAILING));
    RunOn(0, OPENED, TYPING, LOSING + FAILING);
    RunOn(0, SAVE_SENT, LOSING, FAILING);
  }

  const LEAVING := [Unmount] + ([Mount] + [])

  const CAME_BACK := World(EMPTY_SERVER, Client(
    Control(true, 3, true, true, false, true, false, 1, 0, false, true, false, false,
        View(NOTE, 0, Status.Saving, Absent)),
    NoGet, NoPut, NoRebase, NoRemoval, [OpPut(Absent, NOTE, 0)],
    History(NOTE, EMPTY, {Absent}, [Pending], false, true, true), NoVerdict))

  lemma Leaves()
    ensures Run(0, SAVE_SENT, LEAVING) == CAME_BACK
  {
    var a := Step(0, SAVE_SENT, Unmount);
    assert a.client.stale == [OpPut(Absent, NOTE, 0)];
    assert a.client.c == SAVE_SENT.client.c.(active := false, epoch := 2) && a.client.put.NoPut?;
    RunCons(0, SAVE_SENT, Unmount, [Mount] + []);
    RunCons(0, a, Mount, []);
  }

  const STRANDING := OPENING + (TYPING + LEAVING)

  lemma Strands()
    ensures Run(0, ORIGIN, STRANDING) == CAME_BACK
  {
    Opens();
    Types();
    Leaves();
    RunOn(0, ORIGIN, OPENING, TYPING + LEAVING);
    RunOn(0, OPENED, TYPING, LEAVING);
  }

  /** A controller that is stopped in mid-save and started again has unsaved work that it never saves,
      whatever happens next. */
  lemma StopInMidSaveStrands() returns (w: World, events: seq<Event>)
    ensures DraftTheorems.Begins(0, w)
    ensures var t := Run(0, w, events).client;
      IsCurrent(t.c, t.c.epoch) && t.c.known && t.c.dirty && Stranded(t)
    ensures forall more :: !CanSave(Run(0, w, events + more).client.c)
  {
    w, events := ORIGIN, STRANDING;
    Strands();
    forall more ensures !CanSave(Run(0, w, events + more).client.c) {
      RunOn(0, w, events, more);
      NeverSavesAgain(more);
    }
  }

  lemma NeverSavesAgain(more: seq<Event>)
    ensures !CanSave(Run(0, CAME_BACK, more).client.c)
  {
    DraftStranded.StrandedForGood(0, CAME_BACK, more);
  }

  // A discard after that, while the save of the activation before is still on its way.

  const NOTE_STORED := World(NOTE_ROW, CAME_BACK.client.(
    c := CAME_BACK.client.c.(deleting := true), rem := Waiting(Removal(3, 1, Absent)), stale := []))

  const DISCARDING := [Discard(Absent)] + ([ServeStale(0, 0, true)] + [CleanupContinues])

  const STRANDED_WAITS := World(EMPTY_SERVER, NOTE_STORED.client.(stale := [OpPut(Absent, NOTE, 0)]))

  lemma StrandedWaits()
    ensures Step(0, CAME_BACK, Discard(Absent)) == STRANDED_WAITS
  {
  }

  lemma StaleSaveArrives()
    ensures Step(0, STRANDED_WAITS, ServeStale(0, 0, true)) == NOTE_STORED
  {
    var stale := STRANDED_WAITS.client.stale;
    assert stale[..0] + stale[1..] == [];
  }

  lemma ClearsStranded()
    ensures var t := Run(0, CAME_BACK, DISCARDING);
      t.client.verdict == Resolved(Cleared) && t.server == NOTE_ROW && !t.client.h.denied
  {
    StrandedWaits();
    StaleSaveArrives();
    RunCons(0, CAME_BACK, Discard(Absent), [ServeStale(0, 0, true)] + [CleanupContinues]);
    RunCons(0, STRANDED_WAITS, ServeStale(0, 0, true), [CleanupContinues]);
    RunOne(0, NOTE_STORED, CleanupContinues);
  }

  /** A discard by a controller that was stopped in mid-save waits for that save and then reports 'cleared'
      though the draft was stored. */
  lemma StopInMidSaveBreaksDiscard() returns (w: World, events: seq<Event>)
    ensures DraftTheorems.Begins(0, w)
    ensures var t := Run(0, w, events);
      t.client.verdict == Resolved(Cleared) && !t.client.h.denied && !DraftDiscard.NotMine(0, t.server)
  {
    w, events := ORIGIN, STRANDING + DISCARDING;
    Strands();
    ClearsStranded();
    RunOn(0, ORIGIN, STRANDING, DISCARDING);
  }

  // A cleanup that names the version which a save in flight is about to get.

  const CLEANUP_WAITS := World(NOTE_ROW, Client(
    Control(true, 1, true, true, false, true, false, 2, 1, false, true, true, false,
        View(LETTER, 0, Status.Saving, Version(0, 1))),
    NoGet, PutSent(RESENT), NoRebase, Waiting(Removal(1, 1, Version(0, 2))), [],
    History(LETTER, NOTE, {Absent, Version(0, 1)}, [Acknowledged, Pending], false, false, true), NoVerdict))

  lemma Cleans()
    ensures Run(0, LETTER_SENT, [Discard(Version(0, 2))]) == CLEANUP_WAITS
  {
    RunOne(0, LETTER_SENT, Discard(Version(0, 2)));
  }

  const ANSWERING := [ServePut(0)] + ([DeliverPut(Faithful)] + [])

  const LETTER_ROW := Server(Row(Stored(Version(0, 2), LETTER, 0), 0), 1, {Version(0, 1)},
                             [Commit(0, true, Absent, Version(0, 1)), Commit(0, true, Version(0, 1), Version(0, 2))])

  const LETTER_SAVED := World(LETTER_ROW, Client(
    Control(true, 1, true, true, false, false, false, 2, 2, false, false, true, false,
        View(LETTER, 0, Saved, Version(0, 2))),
    NoGet, NoPut, NoRebase, Waiting(Removal(1, 1, Version(0, 2))), [],
    History(LETTER, LETTER, {Absent, Version(0, 1), Version(0, 2)}, [Acknowledged, Acknowledged], false, false, true),
    NoVerdict))

  lemma Answers()
    ensures Run(0, CLEANUP_WAITS, ANSWERING) == LETTER_SAVED
  {
    LetterStored();
    LetterAnswered();
    RunCons(0, CLEANUP_WAITS, ServePut(0), [DeliverPut(Faithful)] + []);
    RunCons(0, LETTER_STORED, DeliverPut(Faithful), []);
  }

  const LETTER_STORED := World(LETTER_ROW,
                               CLEANUP_WAITS.client.(put := PutServed(RESENT, Written(LETTER_ROW.row.stored))))

  lemma LetterStored()
    ensures Step(0, CLEANUP_WAITS, ServePut(0)) == LETTER_STORED
  {
    assert Step(0, CLEANUP_WAITS, ServePut(0)).server.retired == {Version(0, 1)};
  }

  lemma LetterAnswered()
    ensures Step(0, LETTER_STORED, DeliverPut(Faithful)) == LETTER_SAVED
  {
    assert Settle([Acknowledged, Pending], 2, Acknowledged) == [Acknowledged, Acknowledged];
    assert {Absent, Version(0, 1)} + {Version(0, 2)} == {Absent, Version(0, 1), Version(0, 2)};
  }

  const DELETE_SENT := World(LETTER_ROW, LETTER_SAVED.client.(
    rem := DeleteSent(Removal(1, 1, Version(0, 2)), Version(0, 2))))

  lemma Continues()
    ensures Run(0, LETTER_SAVED, [CleanupContinues]) == DELETE_SENT
  {
    RunOne(0, LETTER_SAVED, CleanupContinues);
  }

  const DELETING := [ServeDelete] + ([DeliverDelete(Faithful)] + [])

  lemma Deletes()
    ensures var t := Run(0, DELETE_SENT, DELETING).client;
      !t.h.denied && t.c.known && t.c.dirty && t.c.savedEdit == t.c.edit
  {
    var a := Step(0, DELETE_SENT, ServeDelete);
    assert a.client == DELETE_SENT.client.(rem := DeleteServed(Removal(1, 1, Version(0, 2)), Version(0, 2), Deleted));
    RunCons(0, DELETE_SENT, ServeDelete, [DeliverDelete(Faithful)] + []);
    RunCons(0, a, DeliverDelete(Faithful), []);
  }

  const CLEANUP := [Discard(Version(0, 2))] + (ANSWERING + ([CleanupContinues] + DELETING))

  lemma CleansUp()
    ensures Run(0, LETTER_SENT, CLEANUP) == Run(0, DELETE_SENT, DELETING)
  {
    Cleans();
    Answers();
    Continues();
    RunOn(0, LETTER_SENT, [Discard(Version(0, 2))], ANSWERING + ([CleanupContinues] + DELETING));
    RunOn(0, CLEANUP_WAITS, ANSWERING, [CleanupContinues] + DELETING);
    RunOn(0, LETTER_SAVED, [CleanupContinues], DELETING);
  }

  /** A cleanup that names a version not yet received, that of the save in flight, leaves a saved edit marked
      as unsaved. */
  lemma StrayCleanupMiscounts() returns (w: World, events: seq<Event>)
    ensures DraftTheorems.Begins(0, w)
    ensures var t := Run(0, w, events).client;
      !t.h.denied && t.c.dirty && t.c.savedEdit == t.c.edit && !DraftCounters.CountsEdits(t)
  {
    w, events := ORIGIN, RESAVING + CLEANUP;
    Resaves();
    CleansUp();
    Deletes();
    RunOn(0, ORIGIN, RESAVING, CLEANUP);
  }

  // A cleanup that names the version of another session, over a note that stays on screen.

  const THEIRS := Server(Row(Stored(Version(0, 2), LETTER, 0), 1), 1, {Version(0, 1)},
                         [Commit(0, true, Absent, Version(0, 1)), Commit(1, true, Version(0, 1), Version(0, 2))])

  const OVERWRITTEN := World(THEIRS, NOTE_SAVED.client)

  const OVERWRITE := Foreign(1, OpPut(Version(0, 1), LETTER, 0))

  lemma Overwrites()
    ensures Run(0, NOTE_SAVED, [OVERWRITE]) == OVERWRITTEN
  {
    RunOne(0, NOTE_SAVED, OVERWRITE);
    assert {} + {Version(0, 1)} == {Version(0, 1)};
  }

  const CLEANING := Removal(1, 1, Version(0, 2))

  const THEIRS_NAMED := World(THEIRS, Client(
    Control(true, 1, true, true, false, false, false, 1, 1, false, false, true, false,
        View(NOTE, 0, Saved, Version(0, 1))),
    NoGet, NoPut, NoRebase, DeleteSent(CLEANING, Version(0, 2)), [],
    History(NOTE, NOTE, {Absent, Version(0, 1)}, [Acknowledged], false, false, true), NoVerdict))

  lemma NamesTheirs()
    ensures Run(0, OVERWRITTEN, [Discard(Version(0, 2))]) == THEIRS_NAMED
  {
    RunOne(0, OVERWRITTEN, Discard(Version(0, 2)));
  }

  lemma DeletesTheirs()
    ensures var t := Run(0, THEIRS_NAMED, DELETING).client;
      t.c.known && !t.c.dirty && t.c.view.content == NOTE && t.h.lastReply == EMPTY && !t.h.denied
  {
    var a := Step(0, THEIRS_NAMED, ServeDelete);
    assert a.client == THEIRS_NAMED.client.(rem := DeleteServed(CLEANING, Version(0, 2), Deleted));
    RunCons(0, THEIRS_NAMED, ServeDelete, [DeliverDelete(Faithful)] + []);
    RunCons(0, a, DeliverDelete(Faithful), []);
  }

  const CLEANING_THEIRS := [OVERWRITE] + ([Discard(Version(0, 2))] + DELETING)

  /** A cleanup that names a version of another session deletes it, and leaves on screen what is stored no
      more. */
  lemma StrayCleanupOutdates() returns (w: World, events: seq<Event>)
    ensures DraftTheorems.Begins(0, w)
    ensures var t := Run(0, w, events).client;
      !t.h.denied && t.c.view.content != EMPTY && t.h.lastReply == EMPTY && !DraftReplies.ShowsReply(t)
  {
    w, events := ORIGIN, SAVING + CLEANING_THEIRS;
    Saves();
    Overwrites();
    NamesTheirs();
    DeletesTheirs();
    RunOn(0, ORIGIN, SAVING, CLEANING_THEIRS);
    RunOn(0, NOTE_SAVED, [OVERWRITE], [Discard(Version(0, 2))] + DELETING);
    RunOn(0, OVERWRITTEN, [Discard(Version(0, 2))], DELETING);
  }
}
