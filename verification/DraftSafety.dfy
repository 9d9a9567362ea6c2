/** The draft protocol against the server: what is sent was received, and what is cleared is gone. */
module DraftSafety {
  import opened DraftController
  import opened DraftServer
  import opened DraftProtocol
  import opened DraftInvariants

  ghost predicate Known(server: Server, v: Version) {
    v == Absent || Committed(server, v)
  }

  /** Every version the controller holds or has sent came in a reply, and so was committed. */
  ghost predicate Ledger(me: nat, w: World) {
    var s, r := w.client, w.client.h.receipts;
    && Consistent(w.server)
    && (forall v | v in r :: Known(w.server, v))
    && (s.c.known || s.c.view.version != Absent ==> s.c.view.version in r)
    && (!s.put.NoPut? ==> s.put.request.snapshot.version in r)
    && (!s.reb.NoRebase? ==> s.reb.request.version in r && s.reb.request.version != Absent)
    && (s.get.GetServed? && s.get.reply.ReadRow? ==> Committed(w.server, s.get.reply.stored.version))
    && (s.put.PutServed? && s.put.reply.Written? ==>
        Committed(w.server, s.put.reply.stored.version) && s.put.reply.stored.content == s.put.request.snapshot.content)
    && (s.reb.RebaseServed? && s.reb.reply.Written? ==> Committed(w.server, s.reb.reply.stored.version))
    && (s.rem.DeleteSent? || s.rem.DeleteServed? ==> s.rem.version != Absent)
    && (forall k | 0 <= k < |s.stale| && s.stale[k].OpPut? :: s.stale[k].expected in r)
    && (forall k | 0 <= k < |w.server.chain| && w.server.chain[k].who == me && w.server.chain[k].put ::
        w.server.chain[k].before in r)
  }

  lemma SendLedger(me: nat, w: World)
    requires Ledger(me, w)
    ensures Ledger(me, World(w.server, SendPut(w.client)))
  {
  }

  lemma FlushLedger(me: nat, w: World, epoch: nat, attempts: nat)
    requires Ledger(me, w)
    ensures Ledger(me, World(w.server, OnFlush(w.client, epoch, attempts)))
  {
    SendLedger(me, w);
  }

  lemma MountLedger(me: nat, w: World)
    requires Local(w.client) && Ledger(me, w)
    ensures Ledger(me, World(w.server, OnMount(w.client))) && Ledger(me, World(w.server, OnUnmount(w.client)))
  {
  }

  lemma RestoreLedger(me: nat, w: World)
    requires Local(w.client) && Ledger(me, w) && !w.client.c.known
    ensures Ledger(me, World(w.server, SendGet(w.client)))
  {
  }

  lemma EditLedger(me: nat, w: World, content: Content, base: nat, revision: int)
    requires Local(w.client) && Ledger(me, w)
    ensures Ledger(me, World(w.server, OnEdit(w.client, content, base)))
    ensures Ledger(me, World(w.server, OnReview(w.client, revision)))
  {
  }

  lemma ActionLedger(me: nat, w: World, e: Event)
    requires Local(w.client) && Ledger(me, w)
    ensures Ledger(me, World(w.server, OnAction(w.client, e)))
  {
    match e
    case Mount => MountLedger(me, w);
    case Unmount => MountLedger(me, w);
    case RetryRestore => if !w.client.c.known { RestoreLedger(me, w); }
    case TimerFires => SendLedger(me, w);
    case RetrySave => SendLedger(me, w);
    case Edit(content, base) => EditLedger(me, w, content, base, 0);
    case Review(revision) => EditLedger(me, w, EMPTY, 0, revision);
    case _ =>
  }

  lemma ContinueLedger(me: nat, w: World, q: Removal)
    requires Ledger(me, w)
    ensures Ledger(me, World(w.server, Continue(w.client, q)))
  {
    var s, t := w.client, Continue(w.client, q);
    assert t.h.receipts == s.h.receipts && t.put == s.put && t.reb == s.reb && t.get == s.get && t.stale == s.stale;
    assert t.c == if RemoveNext(s.c, q) == Finish(Cleared) then Clear(s.c, q) else s.c;
  }

  lemma DiscardLedger(me: nat, w: World, requested: Version)
    requires Ledger(me, w)
    ensures Ledger(me, World(w.server, Begin(w.client)))
    ensures Ledger(me, World(w.server, OnDiscard(w.client, requested)))
  {
    var begun := World(w.server, Begin(w.client));
    assert Ledger(me, begun);
    ContinueLedger(me, begun, RemovalFor(w.client.c, requested));
  }

  lemma CleanupLedger(me: nat, w: World)
    requires Ledger(me, w)
    ensures Ledger(me, World(w.server, OnContinue(w.client)))
    ensures Ledger(me, World(w.server, OnSettle(w.client)))
  {
    if w.client.rem.Waiting? { ContinueLedger(me, w, w.client.rem.request); }
  }

  lemma GetReplyLedger(me: nat, w: World, reply: ReadReply)
    requires Lanes(w.client) && Ledger(me, w) && !w.client.get.NoGet?
    requires reply.ReadRow? ==> Committed(w.server, reply.stored.version)
    ensures Ledger(me, World(w.server, GetReplyTaken(w.client, w.client.get.epoch, reply)))
  {
  }

  lemma PutReplyLedger(me: nat, w: World, reply: WriteReply)
    requires Lanes(w.client) && Ledger(me, w) && !w.client.put.NoPut?
    requires reply.Written? ==> Committed(w.server, reply.stored.version)
    ensures Ledger(me, World(w.server, PutReplyTaken(w.client, w.client.put.request, reply)))
  {
  }

  lemma RebaseReplyLedger(me: nat, w: World, reply: WriteReply)
    requires Lanes(w.client) && Ledger(me, w) && !w.client.reb.NoRebase?
    requires reply.Written? ==> Committed(w.server, reply.stored.version)
    ensures Ledger(me, World(w.server, RebaseReplyTaken(w.client, w.client.reb.request, reply)))
  {
  }

  lemma DeleteReplyLedger(me: nat, w: World, reply: DeleteReply)
    requires Lanes(w.client) && Ledger(me, w) && (w.client.rem.DeleteSent? || w.client.rem.DeleteServed?)
    ensures Ledger(me, World(w.server, DeleteReplyTaken(w.client, w.client.rem.request, w.client.rem.version, reply)))
  {
  }

  /** A change on the server alone. */
  lemma ServeLedger(me: nat, w: World, who: nat, op: Op)
    requires Ledger(me, w) && (who == me && op.OpPut? ==> op.expected in w.client.h.receipts)
    ensures Ledger(me, World(Serve(w.server, who, op), w.client))
  {
    ServeConsistent(w.server, who, op);
    ServeOnlyAdds(w.server, who, op);
  }

  lemma ServedCommitted(server: Server, who: nat, op: Op)
    requires WriteAnswer(server, who, op).Written?
    ensures Committed(Serve(server, who, op), WriteAnswer(server, who, op).stored.version)
    ensures op.OpPut? ==> WriteAnswer(server, who, op).stored.content == op.content
  {
  }

  lemma ServePutLedger(me: nat, w: World, base: nat)
    requires Ledger(me, w)
    ensures Ledger(me, ServePutStep(me, w, base))
  {
    if w.client.put.PutSent? {
      var op := PutOp(w.client.put.request, base);
      ServeLedger(me, w, me, op);
      if WriteAnswer(w.server, me, op).Written? { ServedCommitted(w.server, me, op); }
    }
  }

  lemma ServeRebaseLedger(me: nat, w: World, upToDate: bool)
    requires Ledger(me, w)
    ensures Ledger(me, ServeRebaseStep(me, w, upToDate))
  {
    if w.client.reb.RebaseSent? {
      var op := OpRebase(w.client.reb.request.version, w.client.reb.request.reviewed, upToDate);
      ServeLedger(me, w, me, op);
      if WriteAnswer(w.server, me, op).Written? { ServedCommitted(w.server, me, op); }
    }
  }

  lemma ServeGetLedger(me: nat, w: World)
    requires Ledger(me, w)
    ensures Ledger(me, ServeGetStep(w))
  {
  }

  lemma ServeDeleteLedger(me: nat, w: World)
    requires Ledger(me, w)
    ensures Ledger(me, ServeDeleteStep(me, w))
  {
    if w.client.rem.DeleteSent? { ServeLedger(me, w, me, OpDelete(w.client.rem.version)); }
  }

  lemma ServeStaleLedger(me: nat, w: World, index: nat, base: nat, upToDate: bool)
    requires Ledger(me, w)
    ensures Ledger(me, ServeStaleStep(me, w, index, base, upToDate))
  {
    if index < |w.client.stale| { ServeLedger(me, w, me, Arrives(w.client.stale[index], base, upToDate)); }
  }

  lemma RemovalLedger(me: nat, w: World, e: Event)
    requires Ledger(me, w) && (e.Discard? || e.CleanupContinues? || e.CleanupSettles?)
    ensures Ledger(me, World(w.server, OnReply(w.client, e)))
  {
    if e.Discard? { DiscardLedger(me, w, e.requested); } else { CleanupLedger(me, w); }
  }

  lemma ReplyLedger(me: nat, w: World, e: Event)
    requires Local(w.client) && Ledger(me, w)
    ensures Ledger(me, World(w.server, OnReply(w.client, e)))
  {
    if e.Discard? || e.CleanupContinues? || e.CleanupSettles? { RemovalLedger(me, w, e); }
    else { ArrivalLedger(me, w, e); }
  }

  lemma ArrivalLedger(me: nat, w: World, e: Event)
    requires Local(w.client) && Ledger(me, w) && !(e.Discard? || e.CleanupContinues? || e.CleanupSettles?)
    ensures Ledger(me, World(w.server, OnReply(w.client, e)))
  {
    var s := w.client;
    match e
    case DeliverGet(d) => if GetArrives(s, d) { GetReplyLedger(me, w, GetArrival(s, d)); }
    case DeliverPut(d) => if PutArrives(s, d) { PutReplyLedger(me, w, PutArrival(s, d)); }
    case DeliverRebase(d) => if RebaseArrives(s, d) { RebaseReplyLedger(me, w, RebaseArrival(s, d)); }
    case DeliverDelete(d) => if DeleteArrives(s, d) { DeleteReplyLedger(me, w, DeleteArrival(s, d)); }
    case _ =>
  }

  lemma ServerLedger(me: nat, w: World, e: Event)
    requires Local(w.client) && Ledger(me, w)
    ensures Ledger(me, OnServer(me, w, e))
  {
    match e
    case ServeGet => ServeGetLedger(me, w);
    case ServePut(base) => ServePutLedger(me, w, base);
    case ServeRebase(upToDate) => ServeRebaseLedger(me, w, upToDate);
    case ServeDelete => ServeDeleteLedger(me, w);
    case ServeStale(index, base, upToDate) => ServeStaleLedger(me, w, index, base, upToDate);
    case Foreign(who, op) => if who != me { ServeLedger(me, w, who, op); }
    case _ =>
  }

  lemma StepKeepsLedger(me: nat, w: World, e: Event)
    requires Local(w.client) && Ledger(me, w)
    ensures Ledger(me, Step(me, w, e))
  {
    var v := World(w.server, Quiet(w.client));
    assert Ledger(me, v) && Local(v.client);
    if e.Flush? { FlushLedger(me, v, e.epoch, e.attempts); }
    else if IsAction(e) { ActionLedger(me, v, e); }
    else if IsReply(e) { ReplyLedger(me, v, e); }
    else { ServerLedger(me, v, e); }
  }
}
