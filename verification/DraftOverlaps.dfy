/** What requests that overlap can and cannot do to each other, in every run. */
module DraftOverlaps {
  import opened DraftController
  import opened DraftServer
  import opened DraftProtocol
  import opened DraftInvariants
  import opened DraftSafety

  ghost predicate Retired(w: World, v: Version) {
    v in w.server.retired
  }

  ghost predicate RebaseMaySucceed(w: World) {
    var s := w.client;
    (s.reb.RebaseServed? && s.reb.reply.Written?) || (s.reb.RebaseSent? && !Retired(w, s.reb.request.version))
  }

  /** A draft with nothing unsaved has all its edits saved. */
  predicate Level(s: Client) {
    s.c.known && !s.c.dirty ==> s.c.savedEdit == s.c.edit
  }

  predicate Removes(s: Client) {
    s.rem.Waiting? || s.rem.DeleteSent? || s.rem.DeleteServed?
  }

  /** The save a removal waits for is denied. */
  predicate DeniesAwaited(s: Client, e: Event) {
    && s.rem.Waiting? && e.DeliverPut? && PutArrives(s, e.d) && IsCurrent(s.c, s.put.request.epoch)
    && PutArrival(s, e.d).WriteDenied?
  }

  /** A request left behind by a stop keeps its lane marked busy, so nothing but a removal follows it. A save
      is for the version held; a removal whose draft is no longer known finds none held, and none coming. */
  predicate LanesKnow(s: Client) {
    && (s.stale != [] ==> Stranded(s) && s.get.NoGet? && s.put.NoPut? && s.reb.NoRebase?)
    && (!s.get.NoGet? ==> !s.c.saving && !s.c.deleting && !s.c.rebasing)
    && (!s.put.NoPut? ==> s.c.known && s.put.request.snapshot.version == s.c.view.version)
    && (!s.c.known && Removes(s) ==> s.c.view.version == Absent && s.reb.NoRebase?)
    && (!s.c.known && s.rem.Waiting? ==> !s.c.saving && !s.c.rebasing)
  }

  /** A rebase that no edit has overtaken covers all that is saved, and a discard covers every save before it. */
  predicate LanesCover(s: Client) {
    && (!s.reb.NoRebase? && s.reb.request.submittedEdit == s.c.edit ==>
        s.c.savedEdit == s.c.edit && (Removes(s) ==> s.rem.request.clearedEdit == s.c.edit))
    && (Removes(s) && s.rem.request.requested == Absent ==>
        && s.c.savedEdit <= s.rem.request.clearedEdit
        && (!s.put.NoPut? ==> s.put.request.submittedEdit <= s.rem.request.clearedEdit))
    && (s.rem.DeleteSent? || s.rem.DeleteServed? ==>
        s.rem.request.requested == Absent || s.rem.version == s.rem.request.requested)
  }

  /** A write that succeeded has replaced its version, and a rebase and a removal of one version never both
      succeed. */
  ghost predicate OneSucceeds(w: World) {
    var s := w.client;
    && (s.put.PutServed? && s.put.reply.Written? ==>
        s.put.request.snapshot.version == Absent || Retired(w, s.put.request.snapshot.version))
    && (s.reb.RebaseServed? && s.reb.reply.Written? ==> Retired(w, s.reb.request.version))
    && (s.rem.DeleteServed? && s.rem.reply.Deleted? ==>
        Retired(w, s.rem.version) && !(RebaseMaySucceed(w) && s.reb.request.version == s.rem.version))
    && (RebaseMaySucceed(w) ==>
        && s.c.savedEdit <= s.reb.request.submittedEdit
        && (s.c.known ==> s.c.view.version == s.reb.request.version))
  }

  ghost predicate Overlaps(w: World) {
    Level(w.client) && LanesKnow(w.client) && LanesCover(w.client) && OneSucceeds(w)
  }

  ghost predicate Regular(me: nat, w: World) {
    Local(w.client) && Ledger(me, w) && Overlaps(w)
  }

  lemma MountOverlaps(me: nat, w: World)
    requires Regular(me, w)
    ensures Overlaps(World(w.server, OnMount(w.client))) && Overlaps(World(w.server, OnUnmount(w.client)))
  {
  }

  lemma SendOverlaps(me: nat, w: World)
    requires Regular(me, w)
    ensures Overlaps(World(w.server, SendPut(w.client)))
  {
  }

  lemma RestoreOverlaps(me: nat, w: World)
    requires Regular(me, w) && !w.client.c.known
    ensures Overlaps(World(w.server, SendGet(w.client)))
  {
  }

  lemma EditOverlaps(me: nat, w: World, content: Content, base: nat)
    requires Regular(me, w)
    ensures Overlaps(World(w.server, OnEdit(w.client, content, base)))
  {
  }

  lemma ReviewOverlaps(me: nat, w: World, revision: int)
    requires Regular(me, w)
    ensures Overlaps(World(w.server, OnReview(w.client, revision)))
  {
  }

  lemma FlushOverlaps(me: nat, w: World, epoch: nat, attempts: nat)
    requires Regular(me, w)
    ensures Overlaps(World(w.server, OnFlush(w.client, epoch, attempts)))
  {
    SendOverlaps(me, w);
  }

  lemma ActionOverlaps(me: nat, w: World, e: Event)
    requires Regular(me, w)
    ensures Overlaps(World(w.server, OnAction(w.client, e)))
  {
    match e
    case Mount => MountOverlaps(me, w);
    case Unmount => MountOverlaps(me, w);
    case RetryRestore => if !w.client.c.known { RestoreOverlaps(me, w); }
    case TimerFires => SendOverlaps(me, w);
    case RetrySave => SendOverlaps(me, w);
    case Edit(content, base) => EditOverlaps(me, w, content, base);
    case Review(revision) => ReviewOverlaps(me, w, revision);
    case _ =>
  }

  lemma DiscardOverlaps(me: nat, w: World, requested: Version)
    requires Regular(me, w)
    ensures Overlaps(World(w.server, OnDiscard(w.client, requested)))
  {
    var s, q := w.client, RemovalFor(w.client.c, requested);
    if CanRemove(s.c) {
      var begun := World(w.server, Begin(s).(rem := Waiting(q)));
      assert Overlaps(begun);
      if !s.c.saving { GoesOn(me, begun, q); }
    }
  }

  /** The end of a wait, or a removal that had none. */
  lemma GoesOn(me: nat, w: World, q: Removal)
    requires Ledger(me, w) && Overlaps(w) && w.client.rem == Waiting(q) && w.client.put.NoPut?
    ensures Overlaps(World(w.server, Continue(w.client, q)))
  {
  }

  lemma ContinueOverlaps(me: nat, w: World)
    requires Regular(me, w)
    ensures Overlaps(World(w.server, OnContinue(w.client)))
  {
    if w.client.rem.Waiting? && w.client.put.NoPut? { GoesOn(me, w, w.client.rem.request); }
  }

  lemma SettleOverlaps(me: nat, w: World)
    requires Regular(me, w)
    ensures Overlaps(World(w.server, OnSettle(w.client)))
  {
  }

  lemma GetReplyOverlaps(me: nat, w: World, reply: ReadReply)
    requires Regular(me, w) && !w.client.get.NoGet?
    ensures Overlaps(World(w.server, GetReplyTaken(w.client, w.client.get.epoch, reply)))
  {
  }

  lemma PutReplyOverlaps(me: nat, w: World, reply: WriteReply)
    requires Regular(me, w) && !w.client.put.NoPut?
    ensures Overlaps(World(w.server, PutReplyTaken(w.client, w.client.put.request, reply)))
  {
  }

  lemma RebaseReplyOverlaps(me: nat, w: World, reply: WriteReply)
    requires Regular(me, w) && !w.client.reb.NoRebase?
    ensures Overlaps(World(w.server, RebaseReplyTaken(w.client, w.client.reb.request, reply)))
  {
  }

  lemma DeleteReplyOverlaps(me: nat, w: World, reply: DeleteReply)
    requires Regular(me, w) && (w.client.rem.DeleteSent? || w.client.rem.DeleteServed?)
    requires reply.DeleteFailed? || reply.DeleteDenied? ||
        w.client.rem == DeleteServed(w.client.rem.request, w.client.rem.version, reply)
    ensures Overlaps(World(w.server, DeleteReplyTaken(w.client, w.client.rem.request, w.client.rem.version, reply)))
  {
  }

  lemma ReplyOverlaps(me: nat, w: World, e: Event)
    requires Regular(me, w)
    ensures Overlaps(World(w.server, OnReply(w.client, e)))
  {
    if e.Discard? { DiscardOverlaps(me, w, e.requested); }
    else if e.CleanupContinues? { ContinueOverlaps(me, w); }
    else if e.CleanupSettles? { SettleOverlaps(me, w); }
    else { ArrivalOverlaps(me, w, e); }
  }

  lemma ArrivalOverlaps(me: nat, w: World, e: Event)
    requires Regular(me, w) && !(e.Discard? || e.CleanupContinues? || e.CleanupSettles?)
    ensures Overlaps(World(w.server, OnReply(w.client, e)))
  {
    var s := w.client;
    match e
    case DeliverGet(d) => if GetArrives(s, d) { GetReplyOverlaps(me, w, GetArrival(s, d)); }
    case DeliverPut(d) => if PutArrives(s, d) { PutReplyOverlaps(me, w, PutArrival(s, d)); }
    case DeliverRebase(d) => if RebaseArrives(s, d) { RebaseReplyOverlaps(me, w, RebaseArrival(s, d)); }
    case DeliverDelete(d) => if DeleteArrives(s, d) { DeleteReplyOverlaps(me, w, DeleteArrival(s, d)); }
    case _ =>
  }

  lemma ForeignOverlaps(me: nat, w: World, who: nat, op: Op)
    requires Regular(me, w)
    ensures Overlaps(World(Serve(w.server, who, op), w.client))
  {
    ServeOnlyAdds(w.server, who, op);
  }

  lemma ServePutOverlaps(me: nat, w: World, base: nat)
    requires Regular(me, w)
    ensures Overlaps(ServePutStep(me, w, base))
  {
    if w.client.put.PutSent? { ForeignOverlaps(me, w, me, PutOp(w.client.put.request, base)); }
  }

  lemma ServeRebaseOverlaps(me: nat, w: World, upToDate: bool)
    requires Regular(me, w)
    ensures Overlaps(ServeRebaseStep(me, w, upToDate))
  {
    if w.client.reb.RebaseSent? {
      ForeignOverlaps(me, w, me, OpRebase(w.client.reb.request.version, w.client.reb.request.reviewed, upToDate));
    }
  }

  lemma ServeDeleteOverlaps(me: nat, w: World)
    requires Regular(me, w)
    ensures Overlaps(ServeDeleteStep(me, w))
  {
    if w.client.rem.DeleteSent? { ForeignOverlaps(me, w, me, OpDelete(w.client.rem.version)); }
  }

  lemma ServeStaleOverlaps(me: nat, w: World, index: nat, base: nat, upToDate: bool)
    requires Regular(me, w)
    ensures Overlaps(ServeStaleStep(me, w, index, base, upToDate))
  {
    if index < |w.client.stale| { ForeignOverlaps(me, w, me, Arrives(w.client.stale[index], base, upToDate)); }
  }

  lemma ServerOverlaps(me: nat, w: World, e: Event)
    requires Regular(me, w)
    ensures Overlaps(OnServer(me, w, e))
  {
    match e
    case ServePut(base) => ServePutOverlaps(me, w, base);
    case ServeRebase(upToDate) => ServeRebaseOverlaps(me, w, upToDate);
    case ServeDelete => ServeDeleteOverlaps(me, w);
    case ServeStale(index, base, upToDate) => ServeStaleOverlaps(me, w, index, base, upToDate);
    case Foreign(who, op) => ForeignOverlaps(me, w, who, op);
    case _ =>
  }

  lemma QuietRegular(me: nat, w: World)
    requires Regular(me, w)
    ensures Regular(me, World(w.server, Quiet(w.client)))
  {
  }

  lemma StepKeepsOverlaps(me: nat, w: World, e: Event)
    requires Regular(me, w)
    ensures Overlaps(Step(me, w, e))
  {
    var v := World(w.server, Quiet(w.client));
    QuietRegular(me, w);
    if e.Flush? { FlushOverlaps(me, v, e.epoch, e.attempts); }
    else if IsAction(e) { ActionOverlaps(me, v, e); }
    else if IsReply(e) { ReplyOverlaps(me, v, e); }
    else { ServerOverlaps(me, v, e); }
  }
}
