/** Exactly which steps of the draft protocol can put something other than the latest edit on screen as
    unsaved work. */
module DraftDisplay {
  import opened DraftController
  import opened DraftProtocol

  /** Unsaved work on screen is the latest edit. */
  predicate ShowsLatest(s: Client) {
    s.c.dirty ==> s.c.view.content == s.h.lastUpdate
  }

  /** A success that finds an edit it does not cover, on a draft that nothing marks as unsaved. */
  predicate PutRevives(s: Client, reply: WriteReply) {
    !s.put.NoPut? && IsCurrent(s.c, s.put.request.epoch) && Confirms(s.put.request, reply) &&
        s.c.edit != s.put.request.submittedEdit && !s.c.dirty
  }

  predicate RebaseRevives(s: Client, reply: WriteReply) {
    !s.reb.NoRebase? && IsCurrent(s.c, s.reb.request.epoch) && reply.Written? &&
        s.c.edit != s.reb.request.submittedEdit && !s.c.dirty
  }

  predicate DeleteRevives(s: Client, reply: DeleteReply) {
    && (s.rem.DeleteSent? || s.rem.DeleteServed?) && IsCurrent(s.c, s.rem.request.epoch)
    && reply.Deleted? && s.c.view.version == s.rem.version && s.c.edit != s.rem.request.clearedEdit && !s.c.dirty
  }

  predicate CleanupRevives(s: Client) {
    s.rem.Waiting? && s.put.NoPut? && RemoveNext(s.c, s.rem.request) == Finish(Cleared) &&
        s.c.edit != s.rem.request.clearedEdit && !s.c.dirty
  }

  predicate Revives(s: Client, e: Event) {
    match e
    case DeliverPut(d) => PutArrives(s, d) && PutRevives(s, PutArrival(s, d))
    case DeliverRebase(d) => RebaseArrives(s, d) && RebaseRevives(s, RebaseArrival(s, d))
    case DeliverDelete(d) => DeleteArrives(s, d) && DeleteRevives(s, DeleteArrival(s, d))
    case CleanupContinues => CleanupRevives(s)
    case _ => false
  }

  predicate Stray(s: Client) {
    s.c.view.content != s.h.lastUpdate
  }

  lemma GetReplyExactly(s: Client, epoch: nat, reply: ReadReply)
    requires ShowsLatest(s)
    ensures ShowsLatest(GetReplyTaken(s, epoch, reply))
  {
  }

  lemma PutReplyExactly(s: Client, reply: WriteReply)
    requires ShowsLatest(s) && !s.put.NoPut?
    ensures ShowsLatest(PutReplyTaken(s, s.put.request, reply)) <==> !(PutRevives(s, reply) && Stray(s))
  {
    var q, t := s.put.request, PutReplyTaken(s, s.put.request, reply);
    assert t.h.lastUpdate == s.h.lastUpdate;
    SaveTakenExactly(s.c, q, reply, s.h.lastUpdate);
    if IsCurrent(s.c, q.epoch) {
      var after := SaveTaken(s.c, q, reply);
      assert t.c.dirty == after.dirty && t.c.view == after.view;
    }
  }

  lemma SaveTakenExactly(c: Control, q: PutRequest, reply: WriteReply, latest: Content)
    requires c.dirty ==> c.view.content == latest
    ensures var t := SaveTaken(c, q, reply);
      (t.dirty ==> t.view.content == latest)
      <==> !(Confirms(q, reply) && c.edit != q.submittedEdit && !c.dirty && c.view.content != latest)
  {
    if Confirms(q, reply) {
      SaveConfirmedExactly(c, q.submittedEdit, reply.stored, latest);
    } else if reply.WriteDenied? {
      assert !SaveTaken(c, q, reply).dirty;
    }
  }

  lemma SaveConfirmedExactly(c: Control, submittedEdit: nat, stored: Stored, latest: Content)
    requires c.dirty ==> c.view.content == latest
    ensures var t := SaveConfirmed(c, submittedEdit, stored);
      (t.dirty ==> t.view.content == latest) <==> !(c.edit != submittedEdit && !c.dirty && c.view.content != latest)
  {
  }

  lemma RebaseReplyExactly(s: Client, reply: WriteReply)
    requires ShowsLatest(s) && !s.reb.NoRebase?
    ensures ShowsLatest(RebaseReplyTaken(s, s.reb.request, reply)) <==> !(RebaseRevives(s, reply) && Stray(s))
  {
    var q, t := s.reb.request, RebaseReplyTaken(s, s.reb.request, reply);
    assert t.h.lastUpdate == s.h.lastUpdate;
    RebaseTakenExactly(s.c, q, reply, s.h.lastUpdate);
    if IsCurrent(s.c, q.epoch) {
      var after := RebaseTaken(s.c, q, reply);
      assert t.c.dirty == after.dirty && t.c.view == after.view;
    }
  }

  lemma RebaseTakenExactly(c: Control, q: RebaseRequest, reply: WriteReply, latest: Content)
    requires c.dirty ==> c.view.content == latest
    ensures var t := RebaseTaken(c, q, reply);
      (t.dirty ==> t.view.content == latest)
      <==> !(reply.Written? && c.edit != q.submittedEdit && !c.dirty && c.view.content != latest)
  {
    if reply.Written? {
      RebaseAcceptedExactly(c, q.submittedEdit, reply.stored, latest);
    } else if reply.WriteDenied? {
      assert !RebaseTaken(c, q, reply).dirty;
    }
  }

  lemma RebaseAcceptedExactly(c: Control, submittedEdit: nat, stored: Stored, latest: Content)
    requires c.dirty ==> c.view.content == latest
    ensures var t := RebaseAccepted(c, submittedEdit, stored);
      (t.dirty ==> t.view.content == latest) <==> !(c.edit != submittedEdit && !c.dirty && c.view.content != latest)
  {
  }

  lemma DeleteReplyExactly(s: Client, reply: DeleteReply)
    requires ShowsLatest(s) && (s.rem.DeleteSent? || s.rem.DeleteServed?)
    ensures ShowsLatest(DeleteReplyTaken(s, s.rem.request, s.rem.version, reply)) <==>
        !(DeleteRevives(s, reply) && Stray(s))
  {
    if reply.Deleted? { DeletedExactly(s); } else { NotDeleted(s, s.rem.request, s.rem.version, reply); }
  }

  lemma NotDeleted(s: Client, q: Removal, v: Version, reply: DeleteReply)
    requires ShowsLatest(s) && !reply.Deleted?
    ensures ShowsLatest(DeleteReplyTaken(s, q, v, reply))
  {
    var c := RemoveReply(s.c, q, v, reply);
    assert !c.dirty || (c.dirty == s.c.dirty && c.view.content == s.c.view.content);
  }

  lemma DeletedExactly(s: Client)
    requires ShowsLatest(s) && (s.rem.DeleteSent? || s.rem.DeleteServed?)
    ensures ShowsLatest(DeleteReplyTaken(s, s.rem.request, s.rem.version, Deleted)) <==>
        !(DeleteRevives(s, Deleted) && Stray(s))
  {
    var q, t := s.rem.request, DeleteReplyTaken(s, s.rem.request, s.rem.version, Deleted);
    assert t.h.lastUpdate == s.h.lastUpdate;
    assert t.c == if IsCurrent(s.c, q.epoch) && s.c.view.version == s.rem.version then Clear(s.c, q) else s.c;
  }

  lemma ContinueExactly(s: Client, q: Removal)
    requires ShowsLatest(s)
    ensures ShowsLatest(Continue(s, q))
      <==> !(RemoveNext(s.c, q) == Finish(Cleared) && s.c.edit != q.clearedEdit && !s.c.dirty && Stray(s))
  {
  }

  lemma DiscardExactly(s: Client, requested: Version)
    requires ShowsLatest(s)
    ensures ShowsLatest(OnDiscard(s, requested))
  {
    if CanRemove(s.c) {
      assert ShowsLatest(Begin(s));
      ContinueExactly(Begin(s), RemovalFor(s.c, requested));
    }
  }

  lemma ReplyExactly(s: Client, e: Event)
    requires ShowsLatest(s)
    ensures ShowsLatest(OnReply(s, e)) <==> !(Revives(s, e) && Stray(s))
  {
    match e
    case Discard(requested) => DiscardExactly(s, requested);
    case CleanupContinues => if s.rem.Waiting? { ContinueExactly(s, s.rem.request); }
    case CleanupSettles =>
    case DeliverGet(d) => if GetArrives(s, d) { GetReplyExactly(s, s.get.epoch, GetArrival(s, d)); }
    case DeliverPut(d) => if PutArrives(s, d) { PutReplyExactly(s, PutArrival(s, d)); }
    case DeliverRebase(d) => if RebaseArrives(s, d) { RebaseReplyExactly(s, RebaseArrival(s, d)); }
    case DeliverDelete(d) => if DeleteArrives(s, d) { DeleteReplyExactly(s, DeleteArrival(s, d)); }
    case _ =>
  }

  lemma ActionExactly(s: Client, e: Event)
    requires ShowsLatest(s)
    ensures ShowsLatest(OnAction(s, e))
  {
  }

  lemma ServerExactly(me: nat, w: World, e: Event)
    requires ShowsLatest(w.client)
    ensures ShowsLatest(OnServer(me, w, e).client)
  {
  }

  /** From a state that shows the latest edit, a step leads to one that does not exactly when it revives
      a screen that is not the latest edit. */
  lemma ShowsLatestExactly(me: nat, w: World, e: Event)
    requires ShowsLatest(w.client)
    ensures ShowsLatest(Step(me, w, e).client) <==> !(Revives(w.client, e) && Stray(w.client))
  {
    var s := Quiet(w.client);
    if IsAction(e) { ActionExactly(s, e); }
    else if IsReply(e) { ReplyExactly(s, e); }
    else if !e.Flush? { ServerExactly(me, World(w.server, s), e); }
  }
}
