/** A conflict with another session is never written over: only a removal resolves it. */
module DraftConflict {
  import opened DraftController
  import opened DraftServer
  import opened DraftProtocol
  import opened DraftInvariants
  import DraftTheorems

  /** Unsaved work in conflict, and no request but a removal under way. */
  predicate Clashed(s: Client) {
    s.c.view.status == Conflict && s.c.dirty && s.get.NoGet? && s.put.NoPut? && s.reb.NoRebase?
  }

  /** No removal is under way but one that still waits. */
  predicate Frozen(s: Client) {
    Clashed(s) && (s.rem.NoRemoval? || s.rem.Waiting?)
  }

  /** Until the draft is removed: no removal begins, and one that waits does not go on. */
  predicate Unremoved(s: Client, events: seq<Event>) {
    forall k | 0 <= k < |events| :: !events[k].Discard? && (s.rem.Waiting? ==> !events[k].CleanupContinues?)
  }

  /** A save that clashes leaves unsaved work in conflict, whatever was edited meanwhile, and a removal that
      waits for it goes on. */
  lemma ClashFreezes(s: Client)
    requires Lanes(s) && !s.put.NoPut? && IsCurrent(s.c, s.put.request.epoch)
    ensures Clashed(PutReplyTaken(s, s.put.request, WriteClash))
    ensures PutReplyTaken(s, s.put.request, WriteClash).rem == s.rem
  {
  }

  lemma ActionFrozen(s: Client, e: Event)
    requires Frozen(s)
    ensures Frozen(OnAction(s, e)) && OnAction(s, e).stale == s.stale
  {
  }

  lemma ReplyFrozen(s: Client, e: Event)
    requires Frozen(s) && !e.Discard? && !(e.CleanupContinues? && s.rem.Waiting?)
    ensures OnReply(s, e) == s
  {
  }

  lemma ServerFrozen(me: nat, w: World, e: Event)
    requires Frozen(w.client) && w.client.stale == []
    ensures OnServer(me, w, e).client == w.client
    ensures OnServer(me, w, e).server == w.server ||
        (e.Foreign? && e.who != me && OnServer(me, w, e).server == Serve(w.server, e.who, e.op))
  {
  }

  lemma FlushFrozen(s: Client, epoch: nat, attempts: nat)
    requires Frozen(s)
    ensures Frozen(OnFlush(s, epoch, attempts)) && OnFlush(s, epoch, attempts).stale == s.stale
    ensures OnFlush(s, epoch, attempts).verdict == Flushed(false)
  {
  }

  lemma StepFrozen(me: nat, w: World, e: Event)
    requires Frozen(w.client) && w.client.stale == []
    requires !e.Discard? && !(e.CleanupContinues? && w.client.rem.Waiting?)
    ensures var t := Step(me, w, e);
      && Frozen(t.client) && t.client.stale == [] && (t.client.rem.Waiting? ==> w.client.rem.Waiting?)
      && (t.server == w.server || exists who, op :: who != me && t.server == Serve(w.server, who, op))
      && t.client.verdict != Flushed(true)
  {
    var s := Quiet(w.client);
    assert Frozen(s);
    if e.Flush? { FlushFrozen(s, e.epoch, e.attempts); }
    else if IsAction(e) { ActionFrozen(s, e); OthersOnly(s, e); }
    else if IsReply(e) { ReplyFrozen(s, e); }
    else { ServerFrozen(me, World(w.server, s), e); }
  }

  lemma OthersOnly(s: Client, e: Event)
    ensures OnAction(s, e).verdict == s.verdict
  {
  }

  ghost predicate OthersCommits(before: Server, after: Server, me: nat) {
    && |before.chain| <= |after.chain|
    && forall k | |before.chain| <= k < |after.chain| :: after.chain[k].who != me
  }

  /** Whatever is edited, retried, flushed, left and reopened after a conflict: until the draft is removed,
      nothing of this controller is committed any more, and no flush lets the page go. */
  lemma {:induction false} ConflictIsNeverOverwritten(me: nat, w: World, events: seq<Event>)
    requires Frozen(w.client) && w.client.stale == [] && Unremoved(w.client, events)
    ensures var t := Run(me, w, events);
      && Frozen(t.client) && t.client.stale == [] && (t.client.rem.Waiting? ==> w.client.rem.Waiting?)
      && OthersCommits(w.server, t.server, me) && (events != [] ==> t.client.verdict != Flushed(true))
  {
    if events != [] {
      var front, e := events[..|events| - 1], events[|events| - 1];
      assert forall k | 0 <= k < |front| :: front[k] == events[k];
      ConflictIsNeverOverwritten(me, w, front);
      StepFrozen(me, Run(me, w, front), e);
    }
  }

  /** In every run: from the moment a save learns of a clash, until the draft is removed, nothing of this
      controller is committed any more and the work stays unsaved; also while a removal waits for that save. */
  lemma ClashIsNeverOverwritten(me: nat, w: World, events: seq<Event>, more: seq<Event>)
    requires DraftTheorems.Begins(me, w)
    requires var s := Run(me, w, events).client;
      s.put.PutServed? && s.put.reply.WriteClash? && IsCurrent(s.c, s.put.request.epoch) && Unremoved(s, more)
    ensures var t := Run(me, w, events); var u := Run(me, Step(me, t, DeliverPut(Faithful)), more);
      Frozen(u.client) && OthersCommits(t.server, u.server, me) && u.client.verdict != Flushed(true)
  {
    var t := Run(me, w, events);
    DraftTheorems.BeginsInv(me, w);
    DraftTheorems.RunKeepsInv(me, w, events);
    assert t.client.stale == [];
    LearnsOfClash(me, t);
    ConflictIsNeverOverwritten(me, Step(me, t, DeliverPut(Faithful)), more);
  }

  lemma LearnsOfClash(me: nat, w: World)
    requires var s := w.client;
      Lanes(s) && s.put.PutServed? && s.put.reply.WriteClash? && IsCurrent(s.c, s.put.request.epoch)
    ensures var s, t := w.client, Step(me, w, DeliverPut(Faithful));
      && Frozen(t.client) && t.client.rem == s.rem && t.client.stale == s.stale && t.client.verdict == NoVerdict
      && t.server == w.server
  {
    ClashFreezes(Quiet(w.client));
  }
}
