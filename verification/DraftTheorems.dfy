/** What holds in every run of the draft protocol. */
module DraftTheorems {
  import opened DraftController
  import opened DraftServer
  import opened DraftProtocol
  import opened DraftRuns
  import opened DraftInvariants
  import opened DraftSafety
  import opened DraftOverlaps
  import DraftCounters
  import DraftDiscard
  import DraftDisplay
  import DraftOutdated
  import DraftReplies
  import DraftUpdates

  ghost predicate Inv(me: nat, w: World) {
    Regular(me, w) && DraftReplies.Held(w)
  }

  /** A new controller over a server on which it has not written yet. */
  ghost predicate Begins(me: nat, w: World) {
    && Consistent(w.server) && DraftDiscard.NotMine(me, w.server)
    && (forall k | 0 <= k < |w.server.chain| :: w.server.chain[k].who != me)
    && (w.client == NewClient(true) || w.client == NewClient(false))
  }

  lemma StepKeepsInv(me: nat, w: World, e: Event)
    requires Inv(me, w)
    ensures Inv(me, Step(me, w, e))
  {
    StepKeepsLocal(me, w, e);
    StepKeepsLedger(me, w, e);
    StepKeepsOverlaps(me, w, e);
    DraftReplies.StepKeepsHeld(me, w, e);
  }

  lemma {:induction false} RunKeepsInv(me: nat, w: World, events: seq<Event>)
    requires Inv(me, w)
    ensures Inv(me, Run(me, w, events))
  {
    if events != [] {
      RunKeepsInv(me, w, events[..|events| - 1]);
      StepKeepsInv(me, Run(me, w, events[..|events| - 1]), events[|events| - 1]);
    }
  }

  lemma BeginsInv(me: nat, w: World)
    requires Begins(me, w)
    ensures Inv(me, w)
    ensures DraftDiscard.Guarded(me, w) && DraftDiscard.Awaited(me, w)
    ensures DraftUpdates.Updated(w) && DraftCounters.Counted(w) && DraftReplies.ShowsReply(w.client)
  {
  }

  // ---- What holds as long as no step is a hazard ----

  lemma {:induction false} RunGuarded(me: nat, w: World, events: seq<Event>)
    requires Begins(me, w)
    ensures Inv(me, Run(me, w, events))
    ensures Never(DraftDiscard.StopsCreation, me, w, events) ==> DraftDiscard.Guarded(me, Run(me, w, events))
    ensures Never(DraftDiscard.StopsCreation, me, w, events) && Never(DraftDiscard.DeniesDiscard, me, w, events) ==>
        DraftDiscard.Awaited(me, Run(me, w, events))
  {
    if events == [] {
      BeginsInv(me, w);
    } else {
      var front, e := events[..|events| - 1], events[|events| - 1];
      RunGuarded(me, w, front);
      NeverFront(DraftDiscard.StopsCreation, me, w, events);
      NeverFront(DraftDiscard.DeniesDiscard, me, w, events);
      StepKeepsInv(me, Run(me, w, front), e);
      if Never(DraftDiscard.StopsCreation, me, w, events) {
        DraftDiscard.StepKeepsGuarded(me, Run(me, w, front), e);
        if Never(DraftDiscard.DeniesDiscard, me, w, events) {
          DraftDiscard.StepKeepsAwaited(me, Run(me, w, front), e);
        }
      }
    }
  }

  lemma {:induction false} RunUpdated(me: nat, w: World, events: seq<Event>)
    requires Begins(me, w)
    ensures Inv(me, Run(me, w, events))
    ensures Never(DraftUpdates.LosesEdit, me, w, events) ==> DraftUpdates.Updated(Run(me, w, events))
  {
    if events == [] {
      BeginsInv(me, w);
    } else {
      var front, e := events[..|events| - 1], events[|events| - 1];
      RunUpdated(me, w, front);
      NeverFront(DraftUpdates.LosesEdit, me, w, events);
      StepKeepsInv(me, Run(me, w, front), e);
      if Never(DraftUpdates.LosesEdit, me, w, events) {
        DraftUpdates.StepKeepsUpdated(me, Run(me, w, front), e);
      }
    }
  }

  lemma {:induction false} RunCounted(me: nat, w: World, events: seq<Event>)
    requires Begins(me, w)
    ensures Inv(me, Run(me, w, events))
    ensures Never(DraftCounters.NamesSave, me, w, events) ==> DraftCounters.Counted(Run(me, w, events))
  {
    if events == [] {
      BeginsInv(me, w);
    } else {
      var front, e := events[..|events| - 1], events[|events| - 1];
      RunCounted(me, w, front);
      NeverFront(DraftCounters.NamesSave, me, w, events);
      StepKeepsInv(me, Run(me, w, front), e);
      if Never(DraftCounters.NamesSave, me, w, events) {
        DraftCounters.StepKeepsCounted(me, Run(me, w, front), e);
      }
    }
  }

  // ---- The theorems ----

  /** Whenever a removal reports 'cleared', no draft with content of this controller is left on the server:
      in every run in which no stop finds a save under way that creates the draft, unless the removal goes on
      after its wait without the draft's state; and in that case too, if no awaited save was denied over a
      stored draft. */
  lemma DiscardSafety(me: nat, w: World, events: seq<Event>)
    requires Begins(me, w) && events != []
    ensures var before, e := Run(me, w, events[..|events| - 1]).client, events[|events| - 1];
      var t := Run(me, w, events);
      && Never(DraftDiscard.StopsCreation, me, w, events)
      && t.client.verdict == Resolved(Cleared) && (e.CleanupContinues? ==> before.c.known)
      ==> DraftDiscard.NotMine(me, t.server)
    ensures var t := Run(me, w, events);
      && Never(DraftDiscard.StopsCreation, me, w, events) && Never(DraftDiscard.DeniesDiscard, me, w, events)
      && t.client.verdict == Resolved(Cleared)
      ==> DraftDiscard.NotMine(me, t.server)
  {
    var front, e := events[..|events| - 1], events[|events| - 1];
    RunGuarded(me, w, front);
    NeverFront(DraftDiscard.StopsCreation, me, w, events);
    NeverFront(DraftDiscard.DeniesDiscard, me, w, events);
    if Never(DraftDiscard.StopsCreation, me, w, events) {
      DraftDiscard.InformedLeavesNothing(me, Run(me, w, front), e);
      if Never(DraftDiscard.DeniesDiscard, me, w, events) {
        DraftDiscard.ClearedLeavesNothing(me, Run(me, w, front), e);
      }
    }
  }

  /** Nothing but the denial of the awaited save takes a waiting removal's state away in a step. */
  predicate LosesByDenial(s: Client, t: Client, e: Event) {
    t.rem.Waiting? && !t.c.known ==> s.rem == t.rem && (s.c.known ==> DeniesAwaited(s, e))
  }

  lemma StepLosesByDenial(me: nat, w: World, e: Event)
    requires Local(w.client)
    ensures LosesByDenial(w.client, Step(me, w, e).client, e)
  {
    DraftDiscard.WaitLosesStateByDenial(me, w, e);
  }

  lemma RunLosesByDenial(me: nat, w: World, events: seq<Event>, k: nat)
    requires Begins(me, w) && k < |events|
    ensures LosesByDenial(Run(me, w, events[..k]).client, Run(me, w, events[..k + 1]).client, events[k])
  {
    BeginsInv(me, w);
    RunKeepsInv(me, w, events[..k]);
    StepLosesByDenial(me, Run(me, w, events[..k]), events[k]);
    assert events[..k + 1][..k] == events[..k];
  }

  lemma NothingYet(me: nat, w: World, events: seq<Event>)
    requires Begins(me, w)
    ensures Run(me, w, events[..0]).client.rem.NoRemoval?
  {
    assert events[..0] == [];
  }

  /** A removal is without the draft's state, at any point of its wait, exactly because the save it waits for
      was denied at some step of that wait, the state being known until then. */
  lemma {:induction false} UninformedByDenial(me: nat, w: World, events: seq<Event>, n: nat) returns (k: nat)
    requires Begins(me, w) && n <= |events|
    requires var t := Run(me, w, events[..n]).client; t.rem.Waiting? && !t.c.known
    ensures k < n && DeniesAwaited(Run(me, w, events[..k]).client, events[k])
    ensures Run(me, w, events[..k]).client.c.known
    ensures Run(me, w, events[..k]).client.rem == Run(me, w, events[..n]).client.rem
  {
    NothingYet(me, w, events);
    k := n - 1;
    RunLosesByDenial(me, w, events, k);
    if !Run(me, w, events[..k]).client.c.known { k := UninformedByDenial(me, w, events, k); }
  }

  /** In every run a known draft that is not dirty has savedEdit level with the last edit; and dirty means that
      it is behind, unless a cleanup named the version of the save it waited for. */
  lemma CountersTellUnsaved(me: nat, w: World, events: seq<Event>)
    requires Begins(me, w)
    ensures var t := Run(me, w, events).client;
      Level(t) && (Never(DraftCounters.NamesSave, me, w, events) ==> DraftCounters.CountsEdits(t))
  {
    RunCounted(me, w, events);
  }

  /** While something is unsaved the screen shows the latest edit, in every run in which no denial empties it
      under a success still to come. */
  lemma NoEditIsLost(me: nat, w: World, events: seq<Event>)
    requires Begins(me, w) && Never(DraftUpdates.LosesEdit, me, w, events)
    ensures DraftDisplay.ShowsLatest(Run(me, w, events).client)
  {
    RunUpdated(me, w, events);
  }

  ghost predicate ShowsReplyAt(me: nat, w: World, events: seq<Event>, k: nat)
    requires k <= |events|
  {
    DraftReplies.ShowsReply(Run(me, w, events[..k]).client)
  }

  ghost predicate ShowsReplyThroughout(me: nat, w: World, events: seq<Event>) {
    forall k | 0 <= k <= |events| :: ShowsReplyAt(me, w, events, k)
  }

  lemma FrontShowsReply(me: nat, w: World, events: seq<Event>, k: nat)
    requires k < |events|
    ensures ShowsReplyAt(me, w, events, k) == ShowsReplyAt(me, w, events[..|events| - 1], k)
  {
    assert events[..|events| - 1][..k] == events[..k];
  }

  lemma EndShowsReply(me: nat, w: World, events: seq<Event>)
    ensures ShowsReplyAt(me, w, events, |events|) == DraftReplies.ShowsReply(Run(me, w, events).client)
  {
    assert events[..|events|] == events;
  }

  lemma ThroughoutFront(me: nat, w: World, events: seq<Event>)
    requires events != []
    ensures ShowsReplyThroughout(me, w, events) <==>
        ShowsReplyThroughout(me, w, events[..|events| - 1]) && ShowsReplyAt(me, w, events, |events|)
  {
    var front := events[..|events| - 1];
    forall k | 0 <= k <= |front| ensures ShowsReplyAt(me, w, events, k) == ShowsReplyAt(me, w, front, k) {
      FrontShowsReply(me, w, events, k);
    }
  }

  /** A known draft with nothing unsaved shows the latest reply throughout a run exactly if no step of the run
      is the success of a removal of a version that is not on screen. */
  lemma {:induction false} ShowsReplyExactly(me: nat, w: World, events: seq<Event>)
    requires Begins(me, w)
    ensures ShowsReplyThroughout(me, w, events) <==> Never(DraftOutdated.OutdatesIn, me, w, events)
  {
    BeginsInv(me, w);
    if events == [] {
      assert events[..0] == [];
    } else {
      var front := events[..|events| - 1];
      ShowsReplyExactly(me, w, front);
      ThroughoutFront(me, w, events);
      EndShowsReply(me, w, events);
      NeverFront(DraftOutdated.OutdatesIn, me, w, events);
      RunKeepsInv(me, w, front);
      if ShowsReplyThroughout(me, w, front) { LastShowsReply(me, w, events); }
    }
  }

  lemma LastShowsReply(me: nat, w: World, events: seq<Event>)
    requires Begins(me, w) && events != [] && ShowsReplyThroughout(me, w, events[..|events| - 1])
    ensures var front, e := events[..|events| - 1], events[|events| - 1];
      DraftReplies.ShowsReply(Run(me, w, events).client) <==> !DraftOutdated.OutdatesIn(me, Run(me, w, front), e)
  {
    var front := events[..|events| - 1];
    BeginsInv(me, w);
    RunKeepsInv(me, w, front);
    assert ShowsReplyAt(me, w, front, |front|);
    EndShowsReply(me, w, front);
    DraftOutdated.ShowsReplyExactly(me, Run(me, w, front), events[|events| - 1]);
  }

  /** Such a version is never one that the controller has received. */
  lemma OutdatesUnreceived(me: nat, w: World, events: seq<Event>, e: Event)
    requires Begins(me, w) && DraftOutdated.OutdatesIn(me, Run(me, w, events), e)
    ensures Run(me, w, events).client.rem.version !in Run(me, w, events).client.h.receipts
  {
    BeginsInv(me, w);
    RunKeepsInv(me, w, events);
    DraftOutdated.OutdatesUnreceived(me, Run(me, w, events), e);
  }

  /** Unsaved work with nothing in its way has an armed timer, as long as every removal of the activation
      ended 'cleared'; and an armed timer always has work and a clear way. */
  lemma AutosaveNeverStalls(me: nat, w: World, events: seq<Event>)
    requires Begins(me, w)
    ensures var t := Run(me, w, events).client;
      && (IsCurrent(t.c, t.c.epoch) && t.h.allCleared && t.c.view.status == Unsaved && t.c.known && Free(t.c) ==>
          t.c.timer)
      && (t.c.timer ==> t.c.known && t.c.dirty && Free(t.c))
  {
    BeginsInv(me, w);
    RunKeepsInv(me, w, events);
  }

  /** When a flush lets the page go, every edit so far was acknowledged, removed, or dropped by a denial. */
  lemma FlushLeavesNothingPending(me: nat, w: World, events: seq<Event>)
    requires Begins(me, w)
    ensures var t := Run(me, w, events).client;
      t.verdict == Flushed(true) ==> |t.h.fates| == t.c.edit && Pending !in t.h.fates
  {
    BeginsInv(me, w);
    RunKeepsInv(me, w, events);
    if events != [] { FlushedMeansClean(me, Run(me, w, events[..|events| - 1]), events[|events| - 1]); }
  }

  lemma FlushedMeansClean(me: nat, w: World, e: Event)
    ensures Step(me, w, e).client.verdict == Flushed(true) ==> !Step(me, w, e).client.c.dirty
  {
  }

  /** All controllers together commit one chain of versions, none of them twice, and each PUT of this
      controller replaced exactly a version, or an absence, it had received in a reply. */
  lemma OneChainOfVersions(me: nat, w: World, events: seq<Event>)
    requires Begins(me, w)
    ensures var t := Run(me, w, events);
      && SingleChain(t.server) && CommittedOnce(t.server)
      && forall k | 0 <= k < |t.server.chain| && t.server.chain[k].who == me && t.server.chain[k].put ::
          t.server.chain[k].before in t.client.h.receipts
  {
    BeginsInv(me, w);
    RunKeepsInv(me, w, events);
  }
}
