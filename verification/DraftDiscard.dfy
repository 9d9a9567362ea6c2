/** Discard safety: a removal that reports 'cleared' leaves nothing of this controller on the server. */
module DraftDiscard {
  import opened DraftController
  import opened DraftServer
  import opened DraftProtocol
  import opened DraftInvariants
  import opened DraftOverlaps

  /** The stored draft, if any, holds content that someone else wrote. */
  ghost predicate NotMine(me: nat, server: Server) {
    server.row.Row? ==> server.row.author != me
  }

  /** A stop finds a save under way that creates the draft: still on its way, or stored with no earlier write
      in doubt. A discard after the next start would not know of the draft. */
  ghost predicate StopsCreation(me: nat, w: World, e: Event) {
    var s := w.client;
    && e.Unmount? && IsCurrent(s.c, s.c.epoch) && !s.c.deleting && s.c.view.version == Absent
    && (s.put.PutSent? || (s.put.PutServed? && !s.c.uncertain && !NotMine(me, w.server)))
  }

  /** The save that a discard waits for is denied, while a draft of this controller is stored. */
  ghost predicate DeniesDiscard(me: nat, w: World, e: Event) {
    var s := w.client;
    && DeniesAwaited(s, e) && s.rem.request.requested == Absent && !s.c.uncertain && !NotMine(me, w.server)
  }

  /** No removal is answered 'cleared' any more. */
  predicate Stuck(s: Client) {
    !s.c.authorized || RemovalStranded(s)
  }

  /** A PUT left behind by a stop is for the version held, or can only fail. */
  ghost predicate Bound(w: World, op: Op) {
    var s := w.client;
    op.OpPut? ==>
      && op.expected != Absent && op.expected in s.h.receipts && SaveStranded(s)
      && (s.c.known ==> s.c.view.version == op.expected || Retired(w, op.expected))
      && (s.rem.DeleteServed? && s.rem.reply.Deleted? ==> Retired(w, op.expected))
  }

  /** With no version held and no write in doubt, nothing of this controller is stored. */
  ghost predicate HoldsAll(me: nat, w: World) {
    var s := w.client;
    s.c.known && s.c.view.version == Absent && !s.c.uncertain && s.put.NoPut? ==> NotMine(me, w.server)
  }

  /** Holds as long as no stop finds a creating save under way. */
  ghost predicate Guarded(me: nat, w: World) {
    var s := w.client;
    !Stuck(s) ==>
      && (forall k | 0 <= k < |s.stale| :: Bound(w, s.stale[k]))
      && HoldsAll(me, w)
      && (s.rem.DeleteServed? && s.rem.reply.Deleted? ==> NotMine(me, w.server))
      && (s.get.GetServed? && s.get.reply.ReadNothing? ==> NotMine(me, w.server))
  }

  ghost predicate Kept(me: nat, w: World) {
    Regular(me, w) && Guarded(me, w)
  }

  lemma FlushGuarded(me: nat, w: World, epoch: nat, attempts: nat)
    requires Kept(me, w)
    ensures Guarded(me, World(w.server, OnFlush(w.client, epoch, attempts)))
  {
  }

  lemma ActionGuarded(me: nat, w: World, e: Event)
    requires Kept(me, w) && !StopsCreation(me, w, e)
    ensures Guarded(me, World(w.server, OnAction(w.client, e)))
  {
    match e
    case Mount => MountGuarded(me, w);
    case Unmount => UnmountGuarded(me, w);
    case Edit(content, base) => EditGuarded(me, w, content, base);
    case _ =>
  }

  lemma MountGuarded(me: nat, w: World)
    requires Kept(me, w)
    ensures Guarded(me, World(w.server, OnMount(w.client)))
  {
  }

  lemma UnmountGuarded(me: nat, w: World)
    requires Kept(me, w) && !StopsCreation(me, w, Unmount)
    ensures Guarded(me, World(w.server, OnUnmount(w.client)))
  {
  }

  lemma EditGuarded(me: nat, w: World, content: Content, base: nat)
    requires Kept(me, w)
    ensures Guarded(me, World(w.server, OnEdit(w.client, content, base)))
  {
  }

  predicate ReportsCleared(s: Client) {
    s.verdict == Resolved(Cleared)
  }

  lemma ContinueGuarded(me: nat, w: World, q: Removal)
    requires Guarded(me, w) && w.client.put.NoPut? && w.client.verdict == NoVerdict && w.client.rem == Waiting(q)
    ensures Guarded(me, World(w.server, Continue(w.client, q)))
    ensures ReportsCleared(Continue(w.client, q)) && w.client.c.known ==> NotMine(me, w.server)
  {
  }

  lemma DiscardGuarded(me: nat, w: World, requested: Version)
    requires Kept(me, w) && w.client.verdict == NoVerdict
    ensures Guarded(me, World(w.server, OnDiscard(w.client, requested)))
    ensures ReportsCleared(OnDiscard(w.client, requested)) ==> NotMine(me, w.server)
  {
    var s, q := w.client, RemovalFor(w.client.c, requested);
    if CanRemove(s.c) {
      var begun := World(w.server, Begin(s).(rem := Waiting(q)));
      assert Guarded(me, begun);
      if !s.c.saving { ContinueGuarded(me, begun, q); }
    }
  }

  lemma GetReplyGuarded(me: nat, w: World, d: Delivery)
    requires Kept(me, w) && GetArrives(w.client, d)
    ensures Guarded(me, World(w.server, GetReplyTaken(w.client, w.client.get.epoch, GetArrival(w.client, d))))
  {
  }

  lemma PutReplyGuarded(me: nat, w: World, d: Delivery)
    requires Kept(me, w) && PutArrives(w.client, d)
    ensures Guarded(me, World(w.server, PutReplyTaken(w.client, w.client.put.request, PutArrival(w.client, d))))
  {
  }

  lemma RebaseReplyGuarded(me: nat, w: World, d: Delivery)
    requires Kept(me, w) && RebaseArrives(w.client, d)
    ensures Guarded(me, World(w.server, RebaseReplyTaken(w.client, w.client.reb.request, RebaseArrival(w.client, d))))
  {
  }

  lemma DeleteReplyGuarded(me: nat, w: World, d: Delivery)
    requires Kept(me, w) && DeleteArrives(w.client, d)
    ensures var t := DeleteReplyTaken(w.client, w.client.rem.request, w.client.rem.version, DeleteArrival(w.client, d));
      Guarded(me, World(w.server, t)) && (ReportsCleared(t) ==> NotMine(me, w.server))
  {
  }

  lemma ForeignGuarded(me: nat, w: World, who: nat, op: Op)
    requires Kept(me, w) && who != me
    ensures Guarded(me, World(Serve(w.server, who, op), w.client))
  {
    ServeOnlyAdds(w.server, who, op);
  }

  lemma ServePutGuarded(me: nat, w: World, base: nat)
    requires Kept(me, w)
    ensures Guarded(me, ServePutStep(me, w, base))
  {
    if w.client.put.PutSent? { ServeOnlyAdds(w.server, me, PutOp(w.client.put.request, base)); }
  }

  lemma ServeRebaseGuarded(me: nat, w: World, upToDate: bool)
    requires Kept(me, w)
    ensures Guarded(me, ServeRebaseStep(me, w, upToDate))
  {
    if w.client.reb.RebaseSent? {
      ServeOnlyAdds(w.server, me, OpRebase(w.client.reb.request.version, w.client.reb.request.reviewed, upToDate));
    }
  }

  lemma ServeDeleteGuarded(me: nat, w: World)
    requires Kept(me, w)
    ensures Guarded(me, ServeDeleteStep(me, w))
  {
    if w.client.rem.DeleteSent? { ServeOnlyAdds(w.server, me, OpDelete(w.client.rem.version)); }
  }

  lemma ServerGuarded(me: nat, w: World, e: Event)
    requires Kept(me, w)
    ensures Guarded(me, OnServer(me, w, e))
  {
    match e
    case ServePut(base) => ServePutGuarded(me, w, base);
    case ServeRebase(upToDate) => ServeRebaseGuarded(me, w, upToDate);
    case ServeDelete => ServeDeleteGuarded(me, w);
    case ServeStale(index, base, upToDate) => ServeStaleGuarded(me, w, index, base, upToDate);
    case Foreign(who, op) => if who != me { ForeignGuarded(me, w, who, op); }
    case _ =>
  }

  lemma ServeStaleGuarded(me: nat, w: World, index: nat, base: nat, upToDate: bool)
    requires Kept(me, w)
    ensures Guarded(me, ServeStaleStep(me, w, index, base, upToDate))
  {
    if index < |w.client.stale| { ServeOnlyAdds(w.server, me, Arrives(w.client.stale[index], base, upToDate)); }
  }

  /** A removal that goes on after its wait does so with the draft's state still known. */
  predicate Informed(s: Client, e: Event) {
    e.CleanupContinues? ==> s.c.known
  }

  lemma ReplyGuarded(me: nat, w: World, e: Event)
    requires Kept(me, w) && w.client.verdict == NoVerdict
    ensures Guarded(me, World(w.server, OnReply(w.client, e)))
    ensures ReportsCleared(OnReply(w.client, e)) && Informed(w.client, e) ==> NotMine(me, w.server)
  {
    match e
    case Discard(requested) => DiscardGuarded(me, w, requested);
    case CleanupContinues =>
      if w.client.rem.Waiting? && w.client.put.NoPut? { ContinueGuarded(me, w, w.client.rem.request); }
    case DeliverGet(d) => if GetArrives(w.client, d) { GetReplyGuarded(me, w, d); }
    case DeliverPut(d) => if PutArrives(w.client, d) { PutReplyGuarded(me, w, d); }
    case DeliverRebase(d) => if RebaseArrives(w.client, d) { RebaseReplyGuarded(me, w, d); }
    case DeliverDelete(d) => if DeleteArrives(w.client, d) { DeleteReplyGuarded(me, w, d); }
    case _ =>
  }

  lemma OthersAreSilent(me: nat, w: World, e: Event)
    requires w.client.verdict == NoVerdict && !IsReply(e)
    ensures Step(me, w, e).client.verdict != Resolved(Cleared)
  {
  }

  lemma StepKeepsGuarded(me: nat, w: World, e: Event)
    requires Kept(me, w) && !StopsCreation(me, w, e)
    ensures Guarded(me, Step(me, w, e))
  {
    var v := World(w.server, Quiet(w.client));
    QuietKept(me, w, e);
    StepIsQuiet(me, w, e);
    if IsReply(e) { ReplyStepGuarded(me, v, e); } else { OtherGuarded(me, v, e); }
  }

  lemma StepIsQuiet(me: nat, w: World, e: Event)
    ensures Step(me, w, e) == Step(me, World(w.server, Quiet(w.client)), e)
  {
  }

  lemma ReplyStepGuarded(me: nat, w: World, e: Event)
    requires Kept(me, w) && w.client == Quiet(w.client) && IsReply(e)
    ensures Guarded(me, Step(me, w, e))
    ensures ReportsCleared(Step(me, w, e).client) && Informed(w.client, e) ==> NotMine(me, w.server)
  {
    ReplyGuarded(me, w, e);
  }

  /** A removal that reports 'cleared' with the draft's state known leaves nothing of this controller. */
  lemma InformedLeavesNothing(me: nat, w: World, e: Event)
    requires Kept(me, w)
    ensures ReportsCleared(Step(me, w, e).client) && Informed(w.client, e) ==> NotMine(me, Step(me, w, e).server)
  {
    OthersOrReply(me, w, e);
    if IsReply(e) {
      QuietKept(me, w, e);
      StepIsQuiet(me, w, e);
      ReplyStepGuarded(me, World(w.server, Quiet(w.client)), e);
      RepliesAreLocal(me, w, e);
    }
  }

  lemma RepliesAreLocal(me: nat, w: World, e: Event)
    requires IsReply(e)
    ensures Step(me, w, e).server == w.server
  {
  }

  lemma OtherGuarded(me: nat, w: World, e: Event)
    requires Kept(me, w) && w.client == Quiet(w.client) && !StopsCreation(me, w, e) && !IsReply(e)
    ensures Guarded(me, Step(me, w, e))
  {
    if e.Flush? { FlushGuarded(me, w, e.epoch, e.attempts); }
    else if IsAction(e) { ActionGuarded(me, w, e); }
    else { ServerGuarded(me, w, e); }
  }

  lemma OthersOrReply(me: nat, w: World, e: Event)
    ensures !IsReply(e) ==> Step(me, w, e).client.verdict != Resolved(Cleared)
  {
    if !IsReply(e) {
      OthersAreSilent(me, World(w.server, Quiet(w.client)), e);
      assert Quiet(Quiet(w.client)) == Quiet(w.client);
    }
  }

  // ---- When a removal is not informed ----

  lemma WaitAction(s: Client, e: Event)
    requires Local(s)
    ensures var t := OnAction(s, e); t.rem.Waiting? ==> t.rem == s.rem && (t.c.known <==> s.c.known)
  {
  }

  lemma WaitReply(s: Client, e: Event)
    requires Local(s)
    ensures var t := OnReply(s, e);
      t.rem.Waiting? ==>
        if s.rem.Waiting? then t.rem == s.rem && (t.c.known <==> s.c.known && !DeniesAwaited(s, e)) else t.c.known
  {
  }

  /** While a removal waits its draft's state is lost exactly when the save it waits for is denied; it is
      there when the wait begins. */
  lemma WaitLosesStateByDenial(me: nat, w: World, e: Event)
    requires Local(w.client)
    ensures var s, t := w.client, Step(me, w, e).client;
      t.rem.Waiting? ==>
        if s.rem.Waiting? then t.rem == s.rem && (t.c.known <==> s.c.known && !DeniesAwaited(s, e)) else t.c.known
  {
    var s := Quiet(w.client);
    assert Local(s) && DeniesAwaited(s, e) == DeniesAwaited(w.client, e);
    if IsAction(e) { WaitAction(s, e); }
    else if IsReply(e) { WaitReply(s, e); }
  }

  /** A discard that has lost the draft's state in its wait, and will go on to report 'cleared'. Holds as long
      as no stop finds a creating save under way and no awaited save is denied over a stored draft. */
  ghost predicate Awaited(me: nat, w: World) {
    var s := w.client;
    !Stuck(s) && s.rem.Waiting? && !s.c.known && s.rem.request.requested == Absent && !s.c.uncertain ==>
        NotMine(me, w.server)
  }

  lemma AcceptedByOthers(me: nat, server: Server, who: nat, op: Op)
    requires NotMine(me, server) && who != me
    ensures NotMine(me, Serve(server, who, op))
  {
  }

  lemma ServerAwaited(me: nat, w: World, e: Event)
    requires Kept(me, w) && Awaited(me, w)
    ensures Awaited(me, OnServer(me, w, e))
  {
    var s := w.client;
    if !Stuck(s) && s.rem.Waiting? && !s.c.known && s.rem.request.requested == Absent && !s.c.uncertain {
      assert s.stale == [];
      if e.Foreign? && e.who != me { AcceptedByOthers(me, w.server, e.who, e.op); }
    }
  }

  lemma ActionAwaited(me: nat, w: World, e: Event)
    requires Kept(me, w) && Awaited(me, w)
    ensures Awaited(me, World(w.server, OnAction(w.client, e)))
  {
  }

  lemma ReplyAwaited(me: nat, w: World, e: Event)
    requires Kept(me, w) && Awaited(me, w) && !DeniesDiscard(me, w, e)
    ensures Awaited(me, World(w.server, OnReply(w.client, e)))
  {
  }

  lemma QuietKept(me: nat, w: World, e: Event)
    requires Kept(me, w)
    ensures var v := World(w.server, Quiet(w.client));
      && Kept(me, v) && StopsCreation(me, v, e) == StopsCreation(me, w, e)
      && Awaited(me, v) == Awaited(me, w) && DeniesDiscard(me, v, e) == DeniesDiscard(me, w, e)
  {
    QuietRegular(me, w);
    QuietGuarded(me, w);
    QuietDenies(me, w, e);
  }

  lemma QuietGuarded(me: nat, w: World)
    ensures Guarded(me, World(w.server, Quiet(w.client))) == Guarded(me, w)
  {
  }

  lemma QuietDenies(me: nat, w: World, e: Event)
    ensures var v := World(w.server, Quiet(w.client));
      StopsCreation(me, v, e) == StopsCreation(me, w, e) && DeniesDiscard(me, v, e) == DeniesDiscard(me, w, e)
  {
  }

  lemma StepKeepsAwaited(me: nat, w: World, e: Event)
    requires Kept(me, w) && Awaited(me, w) && !DeniesDiscard(me, w, e)
    ensures Awaited(me, Step(me, w, e))
  {
    var v := World(w.server, Quiet(w.client));
    QuietKept(me, w, e);
    if IsAction(e) { ActionAwaited(me, v, e); }
    else if IsReply(e) { ReplyAwaited(me, v, e); }
    else if !e.Flush? { ServerAwaited(me, v, e); }
  }

  lemma AwaitedIsInformed(me: nat, w: World)
    requires Kept(me, w) && Awaited(me, w) && !w.client.c.known
    ensures ReportsCleared(Step(me, w, CleanupContinues).client) ==> NotMine(me, Step(me, w, CleanupContinues).server)
  {
  }

  /** With both invariants 'cleared' always leaves nothing. */
  lemma ClearedLeavesNothing(me: nat, w: World, e: Event)
    requires Kept(me, w) && Awaited(me, w)
    ensures ReportsCleared(Step(me, w, e).client) ==> NotMine(me, Step(me, w, e).server)
  {
    InformedLeavesNothing(me, w, e);
    if !Informed(w.client, e) { AwaitedIsInformed(me, w); }
  }
}
