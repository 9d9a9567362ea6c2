/** The controller holds the newest of the versions it has received. */
module DraftReplies {
  import opened DraftController
  import opened DraftServer
  import opened DraftProtocol
  import opened DraftOverlaps

  predicate ShowsReply(s: Client) {
    s.c.known && !s.c.dirty ==> s.c.view.content == s.h.lastReply
  }

  /** Without a version there was nothing stored by the latest reply. */
  predicate HoldsNothing(s: Client) {
    s.c.known && s.c.view.version == Absent ==> s.h.lastReply == EMPTY
  }

  /** If the stored version is one this controller has received, it is the one it holds. */
  ghost predicate HoldsNewest(w: World) {
    var s := w.client;
    && (s.c.known && w.server.row.Row? && Current(w.server) in s.h.receipts ==> s.c.view.version == Current(w.server))
    && (s.get.GetServed? && w.server.row.Row? && Current(w.server) in s.h.receipts ==>
        s.get.reply.ReadRow? && s.get.reply.stored.version == Current(w.server))
  }

  /** A removal of a version received only ever succeeds for what is on screen. */
  predicate RemovesNewest(s: Client) {
    s.c.known && s.rem.DeleteServed? && s.rem.reply.Deleted? && s.rem.version in s.h.receipts ==>
        s.c.view.version == s.rem.version
  }

  ghost predicate Held(w: World) {
    HoldsNothing(w.client) && HoldsNewest(w) && RemovesNewest(w.client)
  }

  ghost predicate Kept(me: nat, w: World) {
    Regular(me, w) && Held(w)
  }

  lemma MountHeld(me: nat, w: World)
    requires Kept(me, w)
    ensures Held(World(w.server, OnMount(w.client))) && Held(World(w.server, OnUnmount(w.client)))
  {
  }

  lemma FlushHeld(me: nat, w: World, epoch: nat, attempts: nat)
    requires Kept(me, w)
    ensures Held(World(w.server, OnFlush(w.client, epoch, attempts)))
  {
  }

  lemma ActionHeld(me: nat, w: World, e: Event)
    requires Kept(me, w)
    ensures Held(World(w.server, OnAction(w.client, e)))
  {
    match e
    case Mount => MountHeld(me, w);
    case Unmount => MountHeld(me, w);
    case _ =>
  }

  lemma ContinueHeld(w: World, q: Removal)
    requires Held(w) && !w.client.rem.DeleteServed?
    ensures Held(World(w.server, Continue(w.client, q)))
  {
  }

  lemma DiscardHeld(me: nat, w: World, requested: Version)
    requires Kept(me, w)
    ensures Held(World(w.server, OnDiscard(w.client, requested)))
  {
    var s, q := w.client, RemovalFor(w.client.c, requested);
    if CanRemove(s.c) && !s.c.saving { ContinueHeld(World(w.server, Begin(s)), q); }
  }

  lemma GetReplyHeld(me: nat, w: World, reply: ReadReply)
    requires Kept(me, w) && !w.client.get.NoGet?
    requires reply.ReadFailed? || reply.ReadDenied? || w.client.get == GetServed(w.client.get.epoch, reply)
    ensures Held(World(w.server, GetReplyTaken(w.client, w.client.get.epoch, reply)))
  {
  }

  lemma PutReplyHeld(me: nat, w: World, reply: WriteReply)
    requires Kept(me, w) && !w.client.put.NoPut?
    requires reply.WriteFailed? || reply.WriteDenied? || w.client.put == PutServed(w.client.put.request, reply)
    ensures Held(World(w.server, PutReplyTaken(w.client, w.client.put.request, reply)))
  {
  }

  lemma RebaseReplyHeld(me: nat, w: World, reply: WriteReply)
    requires Kept(me, w) && !w.client.reb.NoRebase?
    requires reply.WriteFailed? || reply.WriteDenied? || w.client.reb == RebaseServed(w.client.reb.request, reply)
    ensures Held(World(w.server, RebaseReplyTaken(w.client, w.client.reb.request, reply)))
  {
  }

  lemma DeleteReplyHeld(me: nat, w: World, reply: DeleteReply)
    requires Kept(me, w) && (w.client.rem.DeleteSent? || w.client.rem.DeleteServed?)
    requires reply.DeleteFailed? || reply.DeleteDenied? ||
        w.client.rem == DeleteServed(w.client.rem.request, w.client.rem.version, reply)
    ensures Held(World(w.server, DeleteReplyTaken(w.client, w.client.rem.request, w.client.rem.version, reply)))
  {
    if reply.Deleted? { DeletedHeld(me, w); }
  }

  lemma DeletedHeld(me: nat, w: World)
    requires Kept(me, w) && w.client.rem.DeleteServed? && w.client.rem.reply.Deleted?
    ensures Held(World(w.server, DeleteReplyTaken(w.client, w.client.rem.request, w.client.rem.version, Deleted)))
  {
  }

  lemma ForeignHeld(me: nat, w: World, who: nat, op: Op)
    requires Kept(me, w)
    ensures Held(World(Serve(w.server, who, op), w.client))
  {
    ServeOnlyAdds(w.server, who, op);
  }

  lemma ServePutHeld(me: nat, w: World, base: nat)
    requires Kept(me, w)
    ensures Held(ServePutStep(me, w, base))
  {
    if w.client.put.PutSent? { ForeignHeld(me, w, me, PutOp(w.client.put.request, base)); }
  }

  lemma ServeRebaseHeld(me: nat, w: World, upToDate: bool)
    requires Kept(me, w)
    ensures Held(ServeRebaseStep(me, w, upToDate))
  {
    if w.client.reb.RebaseSent? {
      ForeignHeld(me, w, me, OpRebase(w.client.reb.request.version, w.client.reb.request.reviewed, upToDate));
    }
  }

  lemma ServeDeleteHeld(me: nat, w: World)
    requires Kept(me, w)
    ensures Held(ServeDeleteStep(me, w))
  {
    if w.client.rem.DeleteSent? { ForeignHeld(me, w, me, OpDelete(w.client.rem.version)); }
  }

  lemma ServeGetHeld(me: nat, w: World)
    requires Kept(me, w)
    ensures Held(ServeGetStep(w))
  {
  }

  lemma CleanupHeld(me: nat, w: World)
    requires Kept(me, w)
    ensures Held(World(w.server, OnContinue(w.client))) && Held(World(w.server, OnSettle(w.client)))
  {
    if w.client.rem.Waiting? && w.client.put.NoPut? { ContinueHeld(w, w.client.rem.request); }
  }

  lemma ReplyHeld(me: nat, w: World, e: Event)
    requires Kept(me, w)
    ensures Held(World(w.server, OnReply(w.client, e)))
  {
    if e.Discard? { DiscardHeld(me, w, e.requested); }
    else if e.CleanupContinues? || e.CleanupSettles? { CleanupHeld(me, w); }
    else { ArrivalHeld(me, w, e); }
  }

  lemma ArrivalHeld(me: nat, w: World, e: Event)
    requires Kept(me, w) && !(e.Discard? || e.CleanupContinues? || e.CleanupSettles?)
    ensures Held(World(w.server, OnReply(w.client, e)))
  {
    var s := w.client;
    match e
    case DeliverGet(d) => if GetArrives(s, d) { GetReplyHeld(me, w, GetArrival(s, d)); }
    case DeliverPut(d) => if PutArrives(s, d) { PutReplyHeld(me, w, PutArrival(s, d)); }
    case DeliverRebase(d) => if RebaseArrives(s, d) { RebaseReplyHeld(me, w, RebaseArrival(s, d)); }
    case DeliverDelete(d) => if DeleteArrives(s, d) { DeleteReplyHeld(me, w, DeleteArrival(s, d)); }
    case _ =>
  }

  lemma ServerHeld(me: nat, w: World, e: Event)
    requires Kept(me, w)
    ensures Held(OnServer(me, w, e))
  {
    match e
    case ServeGet => ServeGetHeld(me, w);
    case ServePut(base) => ServePutHeld(me, w, base);
    case ServeRebase(upToDate) => ServeRebaseHeld(me, w, upToDate);
    case ServeDelete => ServeDeleteHeld(me, w);
    case ServeStale(index, base, upToDate) =>
      if index < |w.client.stale| { ForeignHeld(me, w, me, Arrives(w.client.stale[index], base, upToDate)); }
    case Foreign(who, op) => ForeignHeld(me, w, who, op);
    case _ =>
  }

  lemma StepKeepsHeld(me: nat, w: World, e: Event)
    requires Kept(me, w)
    ensures Held(Step(me, w, e))
  {
    var v := World(w.server, Quiet(w.client));
    QuietKept(me, w);
    if e.Flush? || IsAction(e) || IsReply(e) { ClientHeld(me, v, e); } else { ServerHeld(me, v, e); }
  }

  lemma QuietKept(me: nat, w: World)
    requires Kept(me, w)
    ensures Kept(me, World(w.server, Quiet(w.client)))
  {
  }

  lemma ClientHeld(me: nat, w: World, e: Event)
    requires Kept(me, w) && w.client == Quiet(w.client) && (e.Flush? || IsAction(e) || IsReply(e))
    ensures Held(Step(me, w, e))
  {
    if e.Flush? { FlushHeld(me, w, e.epoch, e.attempts); }
    else if IsAction(e) { ActionHeld(me, w, e); }
    else { ReplyHeld(me, w, e); }
  }
}
