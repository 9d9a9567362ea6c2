/** Unsaved work on screen is always the latest edit, overlapping saves, rebases and removals included. */
module DraftUpdates {
  import opened DraftController
  import opened DraftServer
  import opened DraftProtocol
  import opened DraftSafety
  import opened DraftOverlaps
  import opened DraftDisplay

  // A denial empties the screen. It loses an edit when a success that is still to come then marks the empty
  // screen as that edit.

  /** The denial of a save that a discard waits for, with an edit behind the discard. */
  predicate DeniesUnderDiscard(s: Client, e: Event) {
    && DeniesAwaited(s, e) && s.rem.request.requested == Absent && !s.c.uncertain
    && s.c.edit != s.rem.request.clearedEdit && s.h.lastUpdate != EMPTY
  }

  /** The denial of a DELETE, with a rebase that may yet succeed and an edit behind it. */
  ghost predicate DeniesUnderRebase(w: World, e: Event) {
    var s := w.client;
    && e.DeliverDelete? && DeleteArrives(s, e.d) && IsCurrent(s.c, s.rem.request.epoch)
    && DeleteArrival(s, e.d).DeleteDenied?
    && RebaseMaySucceed(w) && s.c.edit != s.reb.request.submittedEdit && s.h.lastUpdate != EMPTY
  }

  ghost predicate LosesEdit(me: nat, w: World, e: Event) {
    DeniesUnderDiscard(w.client, e) || DeniesUnderRebase(w, e)
  }

  /** A save of the latest edit sends it. */
  predicate SavesShown(s: Client) {
    !s.put.NoPut? && s.put.request.submittedEdit == s.c.edit ==> s.put.request.snapshot.content == s.h.lastUpdate
  }

  /** The removal under way can still take effect on the screen. */
  predicate MayClear(s: Client) {
    Removes(s) && (s.c.known || (s.rem.Waiting? && s.rem.request.requested == Absent && !s.c.uncertain))
  }

  /** What a success may yet mark as unsaved is the latest edit. */
  ghost predicate RevivesShown(w: World) {
    var s := w.client;
    && (MayClear(s) && s.c.edit != s.rem.request.clearedEdit ==> s.c.view.content == s.h.lastUpdate)
    && (RebaseMaySucceed(w) && s.c.edit != s.reb.request.submittedEdit ==> s.c.view.content == s.h.lastUpdate)
  }

  /** Holds as long as no denial loses an edit. */
  ghost predicate Updated(w: World) {
    ShowsLatest(w.client) && SavesShown(w.client) && RevivesShown(w)
  }

  ghost predicate Kept(me: nat, w: World) {
    Regular(me, w) && Updated(w)
  }

  lemma FlushUpdated(me: nat, w: World, epoch: nat, attempts: nat)
    requires Kept(me, w)
    ensures Updated(World(w.server, OnFlush(w.client, epoch, attempts)))
  {
  }

  lemma ActionUpdated(me: nat, w: World, e: Event)
    requires Kept(me, w)
    ensures Updated(World(w.server, OnAction(w.client, e)))
  {
  }

  lemma DiscardUpdated(me: nat, w: World, requested: Version)
    requires Kept(me, w)
    ensures Updated(World(w.server, OnDiscard(w.client, requested)))
  {
    var s, q := w.client, RemovalFor(w.client.c, requested);
    if CanRemove(s.c) {
      var begun := World(w.server, Begin(s).(rem := Waiting(q)));
      assert Overlaps(begun) && Updated(begun);
      if !s.c.saving { GoesOn(me, begun, q); }
    }
  }

  /** The end of a wait, or a removal that had none. */
  lemma GoesOn(me: nat, w: World, q: Removal)
    requires Ledger(me, w) && Overlaps(w) && Updated(w) && w.client.rem == Waiting(q) && w.client.put.NoPut?
    ensures Updated(World(w.server, Continue(w.client, q)))
  {
  }

  lemma ContinueUpdated(me: nat, w: World)
    requires Kept(me, w)
    ensures Updated(World(w.server, OnContinue(w.client)))
  {
    if w.client.rem.Waiting? && w.client.put.NoPut? { GoesOn(me, w, w.client.rem.request); }
  }

  lemma SettleUpdated(me: nat, w: World)
    requires Kept(me, w)
    ensures Updated(World(w.server, OnSettle(w.client)))
  {
  }

  lemma GetReplyUpdated(me: nat, w: World, reply: ReadReply)
    requires Kept(me, w) && !w.client.get.NoGet?
    ensures Updated(World(w.server, GetReplyTaken(w.client, w.client.get.epoch, reply)))
  {
  }

  lemma PutReplyUpdated(me: nat, w: World, d: Delivery)
    requires Kept(me, w) && PutArrives(w.client, d) && !DeniesUnderDiscard(w.client, DeliverPut(d))
    ensures Updated(World(w.server, PutReplyTaken(w.client, w.client.put.request, PutArrival(w.client, d))))
  {
  }

  lemma RebaseReplyUpdated(me: nat, w: World, reply: WriteReply)
    requires Kept(me, w) && !w.client.reb.NoRebase?
    requires reply.WriteFailed? || reply.WriteDenied? || w.client.reb == RebaseServed(w.client.reb.request, reply)
    ensures Updated(World(w.server, RebaseReplyTaken(w.client, w.client.reb.request, reply)))
  {
  }

  lemma DeleteReplyUpdated(me: nat, w: World, d: Delivery)
    requires Kept(me, w) && DeleteArrives(w.client, d) && !DeniesUnderRebase(w, DeliverDelete(d))
    ensures var q := w.client.rem;
      Updated(World(w.server, DeleteReplyTaken(w.client, q.request, q.version, DeleteArrival(w.client, d))))
  {
    if DeleteArrival(w.client, d).Deleted? { DeletedUpdated(me, w); }
    else if DeleteArrival(w.client, d).DeleteDenied? { DeleteDeniedUpdated(me, w, d); }
  }

  lemma DeletedUpdated(me: nat, w: World)
    requires Kept(me, w) && w.client.rem.DeleteServed? && w.client.rem.reply.Deleted?
    ensures Updated(World(w.server, DeleteReplyTaken(w.client, w.client.rem.request, w.client.rem.version, Deleted)))
  {
  }

  lemma DeleteDeniedUpdated(me: nat, w: World, d: Delivery)
    requires Kept(me, w) && DeleteArrives(w.client, d) && !DeniesUnderRebase(w, DeliverDelete(d))
    requires DeleteArrival(w.client, d).DeleteDenied?
    ensures var q := w.client.rem;
      Updated(World(w.server, DeleteReplyTaken(w.client, q.request, q.version, DeleteDenied)))
  {
  }

  lemma ReplyUpdated(me: nat, w: World, e: Event)
    requires Kept(me, w) && !LosesEdit(me, w, e)
    ensures Updated(World(w.server, OnReply(w.client, e)))
  {
    if e.Discard? { DiscardUpdated(me, w, e.requested); }
    else if e.CleanupContinues? { ContinueUpdated(me, w); }
    else if e.CleanupSettles? { SettleUpdated(me, w); }
    else { ArrivalUpdated(me, w, e); }
  }

  lemma ArrivalUpdated(me: nat, w: World, e: Event)
    requires Kept(me, w) && !LosesEdit(me, w, e) && !(e.Discard? || e.CleanupContinues? || e.CleanupSettles?)
    ensures Updated(World(w.server, OnReply(w.client, e)))
  {
    var s := w.client;
    match e
    case DeliverGet(d) => if GetArrives(s, d) { GetReplyUpdated(me, w, GetArrival(s, d)); }
    case DeliverPut(d) => if PutArrives(s, d) { PutReplyUpdated(me, w, d); }
    case DeliverRebase(d) => if RebaseArrives(s, d) { RebaseReplyUpdated(me, w, RebaseArrival(s, d)); }
    case DeliverDelete(d) => if DeleteArrives(s, d) { DeleteReplyUpdated(me, w, d); }
    case _ =>
  }

  lemma ForeignUpdated(me: nat, w: World, who: nat, op: Op)
    requires Kept(me, w)
    ensures Updated(World(Serve(w.server, who, op), w.client))
  {
    ServeOnlyAdds(w.server, who, op);
  }

  lemma ServePutUpdated(me: nat, w: World, base: nat)
    requires Kept(me, w)
    ensures Updated(ServePutStep(me, w, base))
  {
    if w.client.put.PutSent? { ForeignUpdated(me, w, me, PutOp(w.client.put.request, base)); }
  }

  lemma ServeRebaseUpdated(me: nat, w: World, upToDate: bool)
    requires Kept(me, w)
    ensures Updated(ServeRebaseStep(me, w, upToDate))
  {
    if w.client.reb.RebaseSent? {
      ForeignUpdated(me, w, me, OpRebase(w.client.reb.request.version, w.client.reb.request.reviewed, upToDate));
    }
  }

  lemma ServeDeleteUpdated(me: nat, w: World)
    requires Kept(me, w)
    ensures Updated(ServeDeleteStep(me, w))
  {
    if w.client.rem.DeleteSent? { ForeignUpdated(me, w, me, OpDelete(w.client.rem.version)); }
  }

  lemma ServerUpdated(me: nat, w: World, e: Event)
    requires Kept(me, w)
    ensures Updated(OnServer(me, w, e))
  {
    match e
    case ServePut(base) => ServePutUpdated(me, w, base);
    case ServeRebase(upToDate) => ServeRebaseUpdated(me, w, upToDate);
    case ServeDelete => ServeDeleteUpdated(me, w);
    case ServeStale(index, base, upToDate) =>
      if index < |w.client.stale| { ForeignUpdated(me, w, me, Arrives(w.client.stale[index], base, upToDate)); }
    case Foreign(who, op) => ForeignUpdated(me, w, who, op);
    case _ =>
  }

  lemma QuietKept(me: nat, w: World, e: Event)
    requires Kept(me, w)
    ensures var v := World(w.server, Quiet(w.client)); Kept(me, v) && LosesEdit(me, v, e) == LosesEdit(me, w, e)
  {
    QuietRegular(me, w);
    QuietLosesEdit(me, w, e);
  }

  lemma QuietLosesEdit(me: nat, w: World, e: Event)
    ensures var v := World(w.server, Quiet(w.client)); LosesEdit(me, v, e) == LosesEdit(me, w, e)
    ensures Updated(World(w.server, Quiet(w.client))) == Updated(w)
  {
  }

  lemma StepKeepsUpdated(me: nat, w: World, e: Event)
    requires Kept(me, w) && !LosesEdit(me, w, e)
    ensures Updated(Step(me, w, e))
  {
    var v := World(w.server, Quiet(w.client));
    QuietKept(me, w, e);
    if e.Flush? { FlushUpdated(me, v, e.epoch, e.attempts); }
    else if IsAction(e) { ActionUpdated(me, v, e); }
    else if IsReply(e) { ReplyUpdated(me, v, e); }
    else { ServerUpdated(me, v, e); }
  }
}
