/** What every step of the draft protocol keeps on the controller's side. */
module DraftInvariants {
  import opened DraftController
  import opened DraftProtocol

  /** At most one request of a kind is under way, and the flags say so; only a removal overlaps with
      another request: the save it waits for, or a rebase. A save is for unsaved work. Nothing but a denial
      takes away what is known while a removal is under way. */
  ghost predicate Lanes(s: Client) {
    var c := s.c;
    && (!s.get.NoGet? ==>
        && c.active && s.get.epoch == c.epoch && c.restoring && !c.known
        && s.put.NoPut? && s.reb.NoRebase? && s.rem.NoRemoval?)
    && (!s.put.NoPut? ==>
        c.active && s.put.request.epoch == c.epoch && c.saving && c.dirty && !c.restoring && s.reb.NoRebase?)
    && (!s.reb.NoRebase? ==> c.active && s.reb.request.epoch == c.epoch && c.rebasing && !c.restoring)
    && (!s.rem.NoRemoval? ==>
        && c.active && s.rem.request.epoch == c.epoch && c.deleting && !c.restoring
        && (s.put.NoPut? || s.rem.Waiting?) && (c.known || s.h.denied))
    && !(c.saving && c.rebasing) && (s.rem.Waiting? ==> s.reb.NoRebase?)
  }

  /** An armed timer has something to save and nothing in its way; unsaved work that could be saved
      has an armed timer as long as every removal of the activation succeeded. */
  ghost predicate Timing(s: Client) {
    var c := s.c;
    && (c.timer ==> c.active && c.known && c.dirty && Free(c))
    && (c.view.status == Unsaved && c.known ==> c.dirty && WithinBounds(c.view.content))
    && (s.h.allCleared && s.rem.Finished? ==> s.rem.result == Cleared)
    && (s.h.allCleared && IsCurrent(c, c.epoch) && c.known && Free(c) && c.view.status == Unsaved ==> c.timer)
  }

  ghost predicate AllSettled(fates: seq<Fate>, upTo: nat) {
    forall k | 0 <= k < upTo && k < |fates| :: fates[k] != Pending
  }

  /** Every edit is either still marked dirty or has met its fate. */
  ghost predicate Counting(s: Client) {
    var c := s.c;
    && |s.h.fates| == c.edit && c.savedEdit <= c.edit
    && (!c.dirty ==> AllSettled(s.h.fates, c.edit))
    && (!s.put.NoPut? ==> s.put.request.submittedEdit <= c.edit)
    && (!s.reb.NoRebase? ==>
        s.reb.request.submittedEdit <= c.edit && AllSettled(s.h.fates, s.reb.request.submittedEdit))
    && (!s.rem.NoRemoval? ==> s.rem.request.clearedEdit <= c.edit)
  }

  ghost predicate Local(s: Client) {
    Lanes(s) && Timing(s) && Counting(s)
  }

  lemma MountLocal(s: Client)
    requires Local(s)
    ensures Local(OnMount(s)) && Local(OnUnmount(s))
  {
  }

  lemma SendLocal(s: Client)
    requires Local(s)
    ensures Local(SendPut(s)) && (!s.c.known ==> Local(SendGet(s)))
  {
  }

  lemma EditLocal(s: Client, content: Content, base: nat)
    requires Local(s)
    ensures Local(OnEdit(s, content, base))
  {
  }

  lemma ReviewLocal(s: Client, revision: int)
    requires Local(s)
    ensures Local(OnReview(s, revision))
  {
  }

  lemma ContinueLocal(s: Client, q: Removal)
    requires Local(s.(rem := DeleteSent(q, TargetOf(s.c, q)))) && s.put.NoPut?
    ensures Local(Continue(s, q))
  {
  }

  lemma DiscardLocal(s: Client, requested: Version)
    requires Local(s)
    ensures Local(OnDiscard(s, requested))
  {
    if CanRemove(s.c) && !s.c.saving { ContinueLocal(Begin(s), RemovalFor(s.c, requested)); }
  }

  lemma CleanupLocal(s: Client)
    requires Local(s)
    ensures Local(OnContinue(s)) && Local(OnSettle(s))
  {
    if s.rem.Waiting? && s.put.NoPut? { ContinueLocal(s, s.rem.request); }
  }

  lemma GetReplyLocal(s: Client, reply: ReadReply)
    requires Local(s) && !s.get.NoGet?
    ensures Local(GetReplyTaken(s, s.get.epoch, reply))
  {
  }

  lemma PutReplyLocal(s: Client, reply: WriteReply)
    requires Local(s) && !s.put.NoPut?
    ensures Local(PutReplyTaken(s, s.put.request, reply))
  {
  }

  lemma RebaseReplyLocal(s: Client, reply: WriteReply)
    requires Local(s) && !s.reb.NoRebase?
    ensures Local(RebaseReplyTaken(s, s.reb.request, reply))
  {
  }

  lemma DeleteReplyLocal(s: Client, reply: DeleteReply)
    requires Local(s) && (s.rem.DeleteSent? || s.rem.DeleteServed?)
    ensures Local(DeleteReplyTaken(s, s.rem.request, s.rem.version, reply))
  {
  }

  lemma FlushLocal(s: Client, epoch: nat, attempts: nat)
    requires Local(s)
    ensures Local(OnFlush(s, epoch, attempts))
  {
    SendLocal(s);
  }

  lemma ActionLocal(s: Client, e: Event)
    requires Local(s)
    ensures Local(OnAction(s, e))
  {
    match e
    case Mount => MountLocal(s);
    case Unmount => MountLocal(s);
    case RetryRestore => SendLocal(s);
    case TimerFires => SendLocal(s);
    case RetrySave => SendLocal(s);
    case Edit(content, base) => EditLocal(s, content, base);
    case Review(revision) => ReviewLocal(s, revision);
    case _ =>
  }

  lemma ReplyLocal(s: Client, e: Event)
    requires Local(s)
    ensures Local(OnReply(s, e))
  {
    if e.Discard? { DiscardLocal(s, e.requested); }
    else if e.CleanupContinues? || e.CleanupSettles? { CleanupLocal(s); }
    else { ArrivalLocal(s, e); }
  }

  lemma ArrivalLocal(s: Client, e: Event)
    requires Local(s) && !(e.Discard? || e.CleanupContinues? || e.CleanupSettles?)
    ensures Local(OnReply(s, e))
  {
    match e
    case DeliverGet(d) => if GetArrives(s, d) { GetReplyLocal(s, GetArrival(s, d)); }
    case DeliverPut(d) => if PutArrives(s, d) { PutReplyLocal(s, PutArrival(s, d)); }
    case DeliverRebase(d) => if RebaseArrives(s, d) { RebaseReplyLocal(s, RebaseArrival(s, d)); }
    case DeliverDelete(d) => if DeleteArrives(s, d) { DeleteReplyLocal(s, DeleteArrival(s, d)); }
    case _ =>
  }

  lemma ServerLocal(me: nat, w: World, e: Event)
    requires Local(w.client)
    ensures Local(OnServer(me, w, e).client)
  {
  }

  lemma StepKeepsLocal(me: nat, w: World, e: Event)
    requires Local(w.client)
    ensures Local(Step(me, w, e).client)
  {
    var s := Quiet(w.client);
    assert Local(s);
    if e.Flush? { FlushLocal(s, e.epoch, e.attempts); }
    else if IsAction(e) { ActionLocal(s, e); }
    else if IsReply(e) { ReplyLocal(s, e); }
    else { ServerLocal(me, World(w.server, s), e); }
  }
}
