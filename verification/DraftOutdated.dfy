/** Exactly which steps of the draft protocol leave a screen with nothing unsaved behind the latest reply. */
module DraftOutdated {
  import opened DraftController
  import opened DraftProtocol
  import opened DraftReplies

  /** The removal of a version that is not on screen succeeds, and nothing is unsaved. */
  predicate Outdates(s: Client, e: Event) {
    && e.DeliverDelete? && DeleteArrives(s, e.d) && IsCurrent(s.c, s.rem.request.epoch)
    && DeleteArrival(s, e.d).Deleted? && s.rem.version != s.c.view.version
    && s.c.known && !s.c.dirty && s.c.view.content != EMPTY
  }

  predicate OutdatesIn(me: nat, w: World, e: Event) {
    Outdates(w.client, e)
  }

  predicate Shows(s: Client) {
    ShowsReply(s) && HoldsNothing(s)
  }

  lemma ActionExactly(s: Client, e: Event)
    requires Shows(s)
    ensures ShowsReply(OnAction(s, e))
  {
  }

  lemma FlushExactly(s: Client, epoch: nat, attempts: nat)
    requires Shows(s)
    ensures ShowsReply(OnFlush(s, epoch, attempts))
  {
  }

  lemma ContinueExactly(s: Client, q: Removal)
    requires Shows(s)
    ensures ShowsReply(Continue(s, q))
  {
  }

  lemma RemovalExactly(s: Client, e: Event)
    requires Shows(s) && (e.Discard? || e.CleanupContinues? || e.CleanupSettles?)
    ensures ShowsReply(OnReply(s, e))
  {
    if e.Discard? && CanRemove(s.c) { ContinueExactly(Begin(s), RemovalFor(s.c, e.requested)); }
    if e.CleanupContinues? && s.rem.Waiting? { ContinueExactly(s, s.rem.request); }
  }

  lemma GetReplyExactly(s: Client, epoch: nat, reply: ReadReply)
    requires Shows(s)
    ensures ShowsReply(GetReplyTaken(s, epoch, reply))
  {
  }

  lemma PutReplyExactly(s: Client, reply: WriteReply)
    requires Shows(s) && !s.put.NoPut?
    ensures ShowsReply(PutReplyTaken(s, s.put.request, reply))
  {
    var q, t := s.put.request, PutReplyTaken(s, s.put.request, reply);
    if IsCurrent(s.c, q.epoch) && Confirms(q, reply) {
      SaveConfirmedExactly(s.c, q.submittedEdit, reply.stored);
      assert t.c == SaveReply(s.c, q, reply);
      var after := SaveConfirmed(s.c, q.submittedEdit, reply.stored);
      assert t.c.dirty == after.dirty && t.c.view == after.view && t.h.lastReply == reply.stored.content;
    } else {
      assert !t.c.known || (t.c.known == s.c.known && t.c.dirty == s.c.dirty);
      assert t.h.lastReply == s.h.lastReply;
    }
  }

  lemma SaveConfirmedExactly(c: Control, submittedEdit: nat, stored: Stored)
    ensures var t := SaveConfirmed(c, submittedEdit, stored); !t.dirty ==> t.view.content == stored.content
  {
  }

  lemma RebaseReplyExactly(s: Client, reply: WriteReply)
    requires Shows(s) && !s.reb.NoRebase?
    ensures ShowsReply(RebaseReplyTaken(s, s.reb.request, reply))
  {
  }

  lemma DeleteReplyExactly(s: Client, d: Delivery)
    requires Shows(s) && DeleteArrives(s, d)
    ensures ShowsReply(DeleteReplyTaken(s, s.rem.request, s.rem.version, DeleteArrival(s, d)))
      <==> !Outdates(s, DeliverDelete(d))
  {
    if DeleteArrival(s, d).Deleted? { DeletedExactly(s, s.rem.request, s.rem.version); }
    else { NotDeleted(s, s.rem.request, s.rem.version, DeleteArrival(s, d)); }
  }

  lemma NotDeleted(s: Client, q: Removal, v: Version, reply: DeleteReply)
    requires Shows(s) && !reply.Deleted?
    ensures ShowsReply(DeleteReplyTaken(s, q, v, reply))
  {
    var c := RemoveReply(s.c, q, v, reply);
    assert !c.known || (c.known == s.c.known && c.dirty == s.c.dirty && c.view.content == s.c.view.content);
    assert DeleteReplyTaken(s, q, v, reply).h.lastReply == s.h.lastReply;
  }

  lemma DeletedExactly(s: Client, q: Removal, v: Version)
    requires Shows(s)
    ensures ShowsReply(DeleteReplyTaken(s, q, v, Deleted)) <==>
        !(IsCurrent(s.c, q.epoch) && v != s.c.view.version && s.c.known && !s.c.dirty && s.c.view.content != EMPTY)
  {
    var t := DeleteReplyTaken(s, q, v, Deleted);
    assert t.h.lastReply == if IsCurrent(s.c, q.epoch) then EMPTY else s.h.lastReply;
    assert t.c == if IsCurrent(s.c, q.epoch) && s.c.view.version == v then Clear(s.c, q) else s.c;
  }

  lemma ArrivalExactly(s: Client, e: Event)
    requires Shows(s) && !(e.Discard? || e.CleanupContinues? || e.CleanupSettles?)
    ensures ShowsReply(OnReply(s, e)) <==> !Outdates(s, e)
  {
    match e
    case DeliverGet(d) => if GetArrives(s, d) { GetReplyExactly(s, s.get.epoch, GetArrival(s, d)); }
    case DeliverPut(d) => if PutArrives(s, d) { PutReplyExactly(s, PutArrival(s, d)); }
    case DeliverRebase(d) => if RebaseArrives(s, d) { RebaseReplyExactly(s, RebaseArrival(s, d)); }
    case DeliverDelete(d) => if DeleteArrives(s, d) { DeleteReplyExactly(s, d); }
    case _ =>
  }

  lemma ServerExactly(me: nat, w: World, e: Event)
    requires Shows(w.client)
    ensures ShowsReply(OnServer(me, w, e).client)
  {
  }

  /** A step makes a screen with nothing unsaved differ from the latest reply exactly when the removal of a
      version that is not on screen succeeds. */
  lemma ShowsReplyExactly(me: nat, w: World, e: Event)
    requires ShowsReply(w.client) && HoldsNothing(w.client)
    ensures ShowsReply(Step(me, w, e).client) <==> !Outdates(w.client, e)
  {
    var s := Quiet(w.client);
    assert Shows(s) && Outdates(s, e) == Outdates(w.client, e);
    if e.Flush? { FlushExactly(s, e.epoch, e.attempts); }
    else if IsAction(e) { ActionExactly(s, e); }
    else if e.Discard? || e.CleanupContinues? || e.CleanupSettles? { RemovalExactly(s, e); }
    else if IsReply(e) { ArrivalExactly(s, e); }
    else { ServerExactly(me, World(w.server, s), e); }
  }

  /** It is always the removal of a version that this controller never received. */
  lemma OutdatesUnreceived(me: nat, w: World, e: Event)
    requires Held(w) && Outdates(w.client, e)
    ensures w.client.rem.version !in w.client.h.receipts
  {
  }
}
