/** The edit counters: `savedEdit` lags behind exactly while something is unsaved, denials included. */
module DraftCounters {
  import opened DraftController
  import opened DraftServer
  import opened DraftProtocol
  import opened DraftSafety
  import opened DraftOverlaps

  predicate CountsEdits(s: Client) {
    (s.c.dirty ==> s.c.savedEdit < s.c.edit) && Level(s)
  }

  predicate Covers(s: Client, q: Removal) {
    s.c.edit != q.clearedEdit ==> s.c.savedEdit < s.c.edit
  }

  /** A cleanup that does not cover the save it waits for names the very version that the save is found to
      have stored. */
  predicate NamesSave(me: nat, w: World, e: Event) {
    var s := w.client;
    && s.rem.Waiting? && s.rem.request.requested == Current(w.server) != Absent
    && e.DeliverPut? && PutArrives(s, e.d) && IsCurrent(s.c, s.put.request.epoch)
    && Confirms(s.put.request, PutArrival(s, e.d))
    && PutArrival(s, e.d).stored.version == s.rem.request.requested
    && s.put.request.submittedEdit == s.c.edit != s.rem.request.clearedEdit
  }

  /** The removal can have no effect on what is on screen: it is for another version. */
  ghost predicate Misses(w: World) {
    var s := w.client;
    && Removes(s) && s.put.NoPut? && s.reb.NoRebase?
    && if s.rem.DeleteServed? then s.rem.version != s.c.view.version || !s.rem.reply.Deleted?
       else
         && s.rem.request.requested != Absent
         && (s.rem.request.requested != s.c.view.version || Retired(w, s.rem.request.requested))
  }

  /** Holds as long as no cleanup names the version of the save it waits for. */
  ghost predicate Counted(w: World) {
    CountsEdits(w.client) && (Removes(w.client) ==> Covers(w.client, w.client.rem.request) || Misses(w))
  }

  ghost predicate Kept(me: nat, w: World) {
    Regular(me, w) && Counted(w)
  }

  lemma MountCounted(me: nat, w: World)
    requires Kept(me, w)
    ensures Counted(World(w.server, OnMount(w.client))) && Counted(World(w.server, OnUnmount(w.client)))
  {
  }

  lemma FlushCounted(me: nat, w: World, epoch: nat, attempts: nat)
    requires Kept(me, w)
    ensures Counted(World(w.server, OnFlush(w.client, epoch, attempts)))
  {
  }

  lemma ActionCounted(me: nat, w: World, e: Event)
    requires Kept(me, w)
    ensures Counted(World(w.server, OnAction(w.client, e)))
  {
    match e
    case Mount => MountCounted(me, w);
    case Unmount => MountCounted(me, w);
    case _ =>
  }

  lemma DiscardCounted(me: nat, w: World, requested: Version)
    requires Kept(me, w)
    ensures Counted(World(w.server, OnDiscard(w.client, requested)))
  {
    var s, q := w.client, RemovalFor(w.client.c, requested);
    if CanRemove(s.c) {
      var begun := World(w.server, Begin(s).(rem := Waiting(q)));
      assert Overlaps(begun) && Counted(begun);
      if !s.c.saving { GoesOn(me, begun, q); }
    }
  }

  /** The end of a wait, or a removal that had none. */
  lemma GoesOn(me: nat, w: World, q: Removal)
    requires Ledger(me, w) && Overlaps(w) && Counted(w) && w.client.rem == Waiting(q) && w.client.put.NoPut?
    ensures Counted(World(w.server, Continue(w.client, q)))
  {
  }

  lemma CleanupCounted(me: nat, w: World)
    requires Kept(me, w)
    ensures Counted(World(w.server, OnContinue(w.client))) && Counted(World(w.server, OnSettle(w.client)))
  {
    if w.client.rem.Waiting? && w.client.put.NoPut? { GoesOn(me, w, w.client.rem.request); }
  }

  lemma GetReplyCounted(me: nat, w: World, reply: ReadReply)
    requires Kept(me, w) && !w.client.get.NoGet?
    ensures Counted(World(w.server, GetReplyTaken(w.client, w.client.get.epoch, reply)))
  {
  }

  lemma PutReplyCounted(me: nat, w: World, d: Delivery)
    requires Kept(me, w) && PutArrives(w.client, d) && !NamesSave(me, w, DeliverPut(d))
    ensures Counted(World(w.server, PutReplyTaken(w.client, w.client.put.request, PutArrival(w.client, d))))
  {
  }

  lemma RebaseReplyCounted(me: nat, w: World, reply: WriteReply)
    requires Kept(me, w) && !w.client.reb.NoRebase?
    requires reply.WriteFailed? || reply.WriteDenied? || w.client.reb == RebaseServed(w.client.reb.request, reply)
    ensures Counted(World(w.server, RebaseReplyTaken(w.client, w.client.reb.request, reply)))
  {
  }

  lemma DeleteReplyCounted(me: nat, w: World, reply: DeleteReply)
    requires Kept(me, w) && (w.client.rem.DeleteSent? || w.client.rem.DeleteServed?)
    requires reply.DeleteFailed? || reply.DeleteDenied? ||
        w.client.rem == DeleteServed(w.client.rem.request, w.client.rem.version, reply)
    ensures Counted(World(w.server, DeleteReplyTaken(w.client, w.client.rem.request, w.client.rem.version, reply)))
  {
  }

  lemma ForeignCounted(me: nat, w: World, who: nat, op: Op)
    requires Kept(me, w)
    ensures Counted(World(Serve(w.server, who, op), w.client))
  {
    ServeOnlyAdds(w.server, who, op);
  }

  lemma ServePutCounted(me: nat, w: World, base: nat)
    requires Kept(me, w)
    ensures Counted(ServePutStep(me, w, base))
  {
    if w.client.put.PutSent? { ForeignCounted(me, w, me, PutOp(w.client.put.request, base)); }
  }

  lemma ServeRebaseCounted(me: nat, w: World, upToDate: bool)
    requires Kept(me, w)
    ensures Counted(ServeRebaseStep(me, w, upToDate))
  {
    if w.client.reb.RebaseSent? {
      ForeignCounted(me, w, me, OpRebase(w.client.reb.request.version, w.client.reb.request.reviewed, upToDate));
    }
  }

  lemma ServeDeleteCounted(me: nat, w: World)
    requires Kept(me, w)
    ensures Counted(ServeDeleteStep(me, w))
  {
    if w.client.rem.DeleteSent? { ForeignCounted(me, w, me, OpDelete(w.client.rem.version)); }
  }

  lemma ReplyCounted(me: nat, w: World, e: Event)
    requires Kept(me, w) && !NamesSave(me, w, e)
    ensures Counted(World(w.server, OnReply(w.client, e)))
  {
    if e.Discard? { DiscardCounted(me, w, e.requested); }
    else if e.CleanupContinues? || e.CleanupSettles? { CleanupCounted(me, w); }
    else { ArrivalCounted(me, w, e); }
  }

  lemma ArrivalCounted(me: nat, w: World, e: Event)
    requires Kept(me, w) && !NamesSave(me, w, e) && !(e.Discard? || e.CleanupContinues? || e.CleanupSettles?)
    ensures Counted(World(w.server, OnReply(w.client, e)))
  {
    var s := w.client;
    match e
    case DeliverGet(d) => if GetArrives(s, d) { GetReplyCounted(me, w, GetArrival(s, d)); }
    case DeliverPut(d) => if PutArrives(s, d) { PutReplyCounted(me, w, d); }
    case DeliverRebase(d) => if RebaseArrives(s, d) { RebaseReplyCounted(me, w, RebaseArrival(s, d)); }
    case DeliverDelete(d) => if DeleteArrives(s, d) { DeleteReplyCounted(me, w, DeleteArrival(s, d)); }
    case _ =>
  }

  lemma ServerCounted(me: nat, w: World, e: Event)
    requires Kept(me, w)
    ensures Counted(OnServer(me, w, e))
  {
    match e
    case ServePut(base) => ServePutCounted(me, w, base);
    case ServeRebase(upToDate) => ServeRebaseCounted(me, w, upToDate);
    case ServeDelete => ServeDeleteCounted(me, w);
    case ServeStale(index, base, upToDate) =>
      if index < |w.client.stale| { ForeignCounted(me, w, me, Arrives(w.client.stale[index], base, upToDate)); }
    case Foreign(who, op) => ForeignCounted(me, w, who, op);
    case _ =>
  }

  lemma QuietKept(me: nat, w: World, e: Event)
    requires Kept(me, w)
    ensures var v := World(w.server, Quiet(w.client)); Kept(me, v) && NamesSave(me, v, e) == NamesSave(me, w, e)
  {
    QuietRegular(me, w);
  }

  lemma StepKeepsCounted(me: nat, w: World, e: Event)
    requires Kept(me, w) && !NamesSave(me, w, e)
    ensures Counted(Step(me, w, e))
  {
    var v := World(w.server, Quiet(w.client));
    QuietKept(me, w, e);
    if e.Flush? { FlushCounted(me, v, e.epoch, e.attempts); }
    else if IsAction(e) { ActionCounted(me, v, e); }
    else if IsReply(e) { ReplyCounted(me, v, e); }
    else { ServerCounted(me, v, e); }
  }
}
