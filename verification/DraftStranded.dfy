/** Which controllers never save again: exactly those that were stopped in mid-request. */
module DraftStranded {
  import opened DraftController
  import opened DraftProtocol
  import opened DraftRuns
  import opened DraftInvariants
  import DraftTheorems

  /** A stop finds a save, a rebase or a removal under way. */
  predicate StopsBusy(s: Client, e: Event) {
    e.Unmount? && s.c.active && (s.c.saving || s.c.rebasing || s.c.deleting)
  }

  // ---- For good ----

  predicate StaysStranded(s: Client, t: Client) {
    && (SaveStranded(s) ==> SaveStranded(t)) && (RebaseStranded(s) ==> RebaseStranded(t))
    && (RemovalStranded(s) ==> RemovalStranded(t))
  }

  lemma ActionStranded(s: Client, e: Event)
    ensures StaysStranded(s, OnAction(s, e))
  {
  }

  lemma FlushStranded(s: Client, epoch: nat, attempts: nat)
    ensures StaysStranded(s, OnFlush(s, epoch, attempts))
  {
  }

  lemma ContinueStranded(s: Client, q: Removal)
    ensures SaveStranded(s) ==> SaveStranded(Continue(s, q))
    ensures RebaseStranded(s) ==> RebaseStranded(Continue(s, q))
  {
  }

  lemma RemovalStepStranded(s: Client, requested: Version)
    ensures StaysStranded(s, OnDiscard(s, requested))
    ensures StaysStranded(s, OnContinue(s)) && StaysStranded(s, OnSettle(s))
  {
    if CanRemove(s.c) { ContinueStranded(Begin(s), RemovalFor(s.c, requested)); }
    if s.rem.Waiting? { ContinueStranded(s, s.rem.request); }
  }

  // What a reply brings changes no flag of a lane; the end of its request changes that of its own.

  predicate SameFlags(c: Control, t: Control) {
    t.saving == c.saving && t.rebasing == c.rebasing && t.deleting == c.deleting && t.authorized == c.authorized
  }

  lemma ReadTakenFlags(c: Control, reply: ReadReply)
    ensures SameFlags(c, ReadTaken(c, reply))
  {
  }

  lemma SaveTakenFlags(c: Control, q: PutRequest, reply: WriteReply)
    ensures SameFlags(c, SaveTaken(c, q, reply))
  {
  }

  lemma RebaseTakenFlags(c: Control, q: RebaseRequest, reply: WriteReply)
    ensures SameFlags(c, RebaseTaken(c, q, reply))
  {
  }

  lemma RestoreReplyFlags(c: Control, epoch: nat, reply: ReadReply)
    ensures SameFlags(c, RestoreReply(c, epoch, reply))
  {
    ReadTakenFlags(c, reply);
  }

  lemma SaveReplyFlags(c: Control, q: PutRequest, reply: WriteReply)
    ensures SameFlags(c.(saving := c.saving && !IsCurrent(c, q.epoch)), SaveReply(c, q, reply))
  {
    SaveTakenFlags(c, q, reply);
  }

  lemma RebaseReplyFlags(c: Control, q: RebaseRequest, reply: WriteReply)
    ensures SameFlags(c.(rebasing := c.rebasing && !IsCurrent(c, q.epoch)), RebaseReply(c, q, reply))
  {
    RebaseTakenFlags(c, q, reply);
  }

  lemma GetReplyStranded(s: Client, epoch: nat, reply: ReadReply)
    ensures StaysStranded(s, GetReplyTaken(s, epoch, reply))
  {
    RestoreReplyFlags(s.c, epoch, reply);
  }

  lemma PutReplyStranded(s: Client, reply: WriteReply)
    requires !s.put.NoPut?
    ensures StaysStranded(s, PutReplyTaken(s, s.put.request, reply))
  {
    SaveReplyFlags(s.c, s.put.request, reply);
  }

  lemma RebaseReplyStranded(s: Client, reply: WriteReply)
    requires !s.reb.NoRebase?
    ensures StaysStranded(s, RebaseReplyTaken(s, s.reb.request, reply))
  {
    RebaseReplyFlags(s.c, s.reb.request, reply);
  }

  lemma DeleteReplyStranded(s: Client, reply: DeleteReply)
    requires s.rem.DeleteSent? || s.rem.DeleteServed?
    ensures StaysStranded(s, DeleteReplyTaken(s, s.rem.request, s.rem.version, reply))
  {
  }

  lemma ReplyStranded(s: Client, e: Event)
    ensures StaysStranded(s, OnReply(s, e))
  {
    match e
    case Discard(requested) => RemovalStepStranded(s, requested);
    case CleanupContinues => RemovalStepStranded(s, Absent);
    case CleanupSettles => RemovalStepStranded(s, Absent);
    case DeliverGet(d) => if GetArrives(s, d) { GetReplyStranded(s, s.get.epoch, GetArrival(s, d)); }
    case DeliverPut(d) => if PutArrives(s, d) { PutReplyStranded(s, PutArrival(s, d)); }
    case DeliverRebase(d) => if RebaseArrives(s, d) { RebaseReplyStranded(s, RebaseArrival(s, d)); }
    case DeliverDelete(d) => if DeleteArrives(s, d) { DeleteReplyStranded(s, DeleteArrival(s, d)); }
    case _ =>
  }

  lemma ServerStranded(me: nat, w: World, e: Event)
    ensures StaysStranded(w.client, OnServer(me, w, e).client)
  {
  }

  lemma StepStranded(me: nat, w: World, e: Event)
    ensures StaysStranded(w.client, Step(me, w, e).client)
  {
    var s := Quiet(w.client);
    assert StaysStranded(w.client, s);
    if e.Flush? { FlushStranded(s, e.epoch, e.attempts); }
    else if IsAction(e) { ActionStranded(s, e); }
    else if IsReply(e) { ReplyStranded(s, e); }
    else { ServerStranded(me, World(w.server, s), e); }
  }

  /** A stranded controller never saves, restores or rebases again, however often it is restarted. */
  lemma {:induction false} StrandedForGood(me: nat, w: World, events: seq<Event>)
    requires Stranded(w.client)
    ensures var t := Run(me, w, events).client;
      Stranded(t) && !CanSave(t.c) && !CanRestore(t.c) && forall reviewed :: !CanRebase(t.c, reviewed)
  {
    if events != [] {
      StrandedForGood(me, w, events[..|events| - 1]);
      StepStranded(me, Run(me, w, events[..|events| - 1]), events[|events| - 1]);
    }
  }

  // ---- How it comes about ----

  /** A stop in mid-request strands, and nothing else does as long as the session is the same. */
  predicate Accounted(s: Client) {
    (s.h.leftover ==> Stranded(s)) && (s.c.authorized && Stranded(s) ==> s.h.leftover)
  }

  lemma UnmountAccounted(s: Client)
    requires Lanes(s) && Accounted(s)
    ensures Accounted(OnUnmount(s)) && OnUnmount(s).h.leftover == (s.h.leftover || StopsBusy(s, Unmount))
  {
  }

  lemma ActionNeutral(s: Client, e: Event)
    requires Lanes(s) && !e.Unmount?
    ensures Neutral(s, OnAction(s, e))
  {
    match e
    case Mount => MountNeutral(s);
    case RetryRestore => SendNeutral(s);
    case TimerFires => SendNeutral(s);
    case RetrySave => SendNeutral(s);
    case Edit(content, base) => EditNeutral(s, content, base);
    case Review(revision) => ReviewNeutral(s, revision);
    case _ =>
  }

  lemma MountNeutral(s: Client)
    ensures Neutral(s, OnMount(s))
  {
  }

  lemma SendNeutral(s: Client)
    ensures Neutral(s, SendPut(s)) && Neutral(s, SendGet(s))
  {
  }

  lemma EditNeutral(s: Client, content: Content, base: nat)
    ensures Neutral(s, OnEdit(s, content, base))
  {
  }

  lemma ReviewNeutral(s: Client, revision: int)
    ensures Neutral(s, OnReview(s, revision))
  {
  }

  /** The other steps neither strand nor record a stop. */
  predicate Neutral(s: Client, t: Client) {
    t.h.leftover == s.h.leftover && (t.c.authorized ==> s.c.authorized) &&
        (s.c.authorized && !Stranded(s) ==> !Stranded(t))
  }

  lemma FlushNeutral(s: Client, epoch: nat, attempts: nat)
    ensures Neutral(s, OnFlush(s, epoch, attempts))
  {
  }

  lemma ContinueNeutral(s: Client, q: Removal)
    ensures Neutral(s.(rem := Waiting(q)), Continue(s, q))
  {
  }

  lemma RemovalStepNeutral(s: Client, requested: Version)
    requires Lanes(s)
    ensures Neutral(s, OnDiscard(s, requested)) && Neutral(s, OnContinue(s)) && Neutral(s, OnSettle(s))
  {
    if CanRemove(s.c) { ContinueNeutral(Begin(s), RemovalFor(s.c, requested)); }
    if s.rem.Waiting? { ContinueNeutral(s, s.rem.request); }
  }

  lemma GetReplyNeutral(s: Client, reply: ReadReply)
    ensures Neutral(s, GetReplyTaken(s, s.c.epoch, reply))
  {
    RestoreReplyFlags(s.c, s.c.epoch, reply);
  }

  lemma PutReplyNeutral(s: Client, reply: WriteReply)
    requires Lanes(s) && !s.put.NoPut?
    ensures Neutral(s, PutReplyTaken(s, s.put.request, reply))
  {
    SaveReplyFlags(s.c, s.put.request, reply);
  }

  lemma RebaseReplyNeutral(s: Client, reply: WriteReply)
    requires Lanes(s) && !s.reb.NoRebase?
    ensures Neutral(s, RebaseReplyTaken(s, s.reb.request, reply))
  {
    RebaseReplyFlags(s.c, s.reb.request, reply);
  }

  lemma DeleteReplyNeutral(s: Client, reply: DeleteReply)
    requires s.rem.DeleteSent? || s.rem.DeleteServed?
    ensures Neutral(s, DeleteReplyTaken(s, s.rem.request, s.rem.version, reply))
  {
  }

  lemma ReplyNeutral(s: Client, e: Event)
    requires Lanes(s)
    ensures Neutral(s, OnReply(s, e))
  {
    match e
    case Discard(requested) => RemovalStepNeutral(s, requested);
    case CleanupContinues => RemovalStepNeutral(s, Absent);
    case CleanupSettles => RemovalStepNeutral(s, Absent);
    case DeliverGet(d) => if GetArrives(s, d) { GetReplyNeutral(s, GetArrival(s, d)); }
    case DeliverPut(d) => if PutArrives(s, d) { PutReplyNeutral(s, PutArrival(s, d)); }
    case DeliverRebase(d) => if RebaseArrives(s, d) { RebaseReplyNeutral(s, RebaseArrival(s, d)); }
    case DeliverDelete(d) => if DeleteArrives(s, d) { DeleteReplyNeutral(s, DeleteArrival(s, d)); }
    case _ =>
  }

  lemma ServerNeutral(me: nat, w: World, e: Event)
    ensures Neutral(w.client, OnServer(me, w, e).client)
  {
  }

  lemma StepAccounted(me: nat, w: World, e: Event)
    requires Local(w.client) && Accounted(w.client)
    ensures Accounted(Step(me, w, e).client)
    ensures Step(me, w, e).client.h.leftover == (w.client.h.leftover || StopsBusy(w.client, e))
  {
    var s := Quiet(w.client);
    assert Lanes(s) && Accounted(s);
    StepStranded(me, w, e);
    if e.Flush? { FlushNeutral(s, e.epoch, e.attempts); }
    else if e.Unmount? { UnmountAccounted(s); }
    else if IsAction(e) { ActionNeutral(s, e); }
    else if IsReply(e) { ReplyNeutral(s, e); }
    else { ServerNeutral(me, World(w.server, s), e); }
  }

  predicate StopsBusyIn(me: nat, w: World, e: Event) {
    StopsBusy(w.client, e)
  }

  lemma {:induction false} RunAccounted(me: nat, w: World, events: seq<Event>)
    requires DraftTheorems.Begins(me, w)
    ensures var t := Run(me, w, events).client;
      Accounted(t) && (t.h.leftover <==> !Never(StopsBusyIn, me, w, events))
  {
    if events != [] {
      var front := events[..|events| - 1];
      RunAccounted(me, w, front);
      NeverFront(StopsBusyIn, me, w, events);
      DraftTheorems.BeginsInv(me, w);
      DraftTheorems.RunKeepsInv(me, w, front);
      StepAccounted(me, Run(me, w, front), events[|events| - 1]);
    }
  }

  /** In every run whose session is still the same, the controller is stranded exactly if some stop found a
      save, a rebase or a removal under way; and a stop that does always strands it. */
  lemma StrandedByBusyStop(me: nat, w: World, events: seq<Event>)
    requires DraftTheorems.Begins(me, w)
    ensures var t := Run(me, w, events).client; var stopped := !Never(StopsBusyIn, me, w, events);
      && (stopped <==> t.h.leftover) && (stopped ==> Stranded(t)) && (t.c.authorized ==> (Stranded(t) <==> stopped))
  {
    RunAccounted(me, w, events);
  }
}
