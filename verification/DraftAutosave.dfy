/** Exactly which steps of the draft protocol leave unsaved work without a timer. */
module DraftAutosave {
  import opened DraftController
  import opened DraftProtocol
  import opened DraftInvariants
  import DraftTheorems

  /** Unsaved work, nothing in its way, and no timer to save it. */
  predicate Stalled(s: Client) {
    IsCurrent(s.c, s.c.epoch) && s.c.known && Free(s.c) && s.c.view.status == Unsaved && !s.c.timer
  }

  /** A removal that did not end 'cleared' settles while unsaved work has nothing else in its way. */
  predicate Stalls(s: Client, e: Event) {
    && e.CleanupSettles? && s.rem.Finished? && IsCurrent(s.c, s.rem.request.epoch) && s.rem.result != Cleared
    && s.c.view.status == Unsaved && s.c.known && !s.c.restoring && !s.c.saving && !s.c.rebasing
  }

  ghost predicate Lively(s: Client) {
    Local(s) && !Stalled(s)
  }

  lemma ActionLively(s: Client, e: Event)
    requires Lively(s)
    ensures !Stalled(OnAction(s, e))
  {
  }

  lemma FlushLively(s: Client, epoch: nat, attempts: nat)
    requires Lively(s)
    ensures !Stalled(OnFlush(s, epoch, attempts))
  {
  }

  lemma ContinueLively(s: Client, q: Removal)
    requires s.c.deleting
    ensures !Stalled(Continue(s, q))
  {
  }

  lemma DiscardLively(s: Client, requested: Version)
    requires Lively(s)
    ensures !Stalled(OnDiscard(s, requested)) && !Stalled(OnContinue(s))
  {
    if CanRemove(s.c) { ContinueLively(Begin(s), RemovalFor(s.c, requested)); }
    if s.rem.Waiting? { ContinueLively(s, s.rem.request); }
  }

  lemma SettleExactly(s: Client)
    requires Lively(s)
    ensures Stalled(OnSettle(s)) <==> Stalls(s, CleanupSettles)
  {
  }

  lemma GetReplyLively(s: Client, reply: ReadReply)
    requires Lively(s) && !s.get.NoGet?
    ensures !Stalled(GetReplyTaken(s, s.get.epoch, reply))
  {
  }

  lemma PutReplyLively(s: Client, reply: WriteReply)
    requires Lively(s) && !s.put.NoPut?
    ensures !Stalled(PutReplyTaken(s, s.put.request, reply))
  {
  }

  lemma RebaseReplyLively(s: Client, reply: WriteReply)
    requires Lively(s) && !s.reb.NoRebase?
    ensures !Stalled(RebaseReplyTaken(s, s.reb.request, reply))
  {
  }

  lemma DeleteReplyLively(s: Client, reply: DeleteReply)
    requires Lively(s) && (s.rem.DeleteSent? || s.rem.DeleteServed?)
    ensures !Stalled(DeleteReplyTaken(s, s.rem.request, s.rem.version, reply))
  {
  }

  lemma ReplyExactly(s: Client, e: Event)
    requires Lively(s)
    ensures Stalled(OnReply(s, e)) <==> Stalls(s, e)
  {
    match e
    case Discard(requested) => DiscardLively(s, requested);
    case CleanupContinues => DiscardLively(s, Absent);
    case CleanupSettles => SettleExactly(s);
    case DeliverGet(d) => if GetArrives(s, d) { GetReplyLively(s, GetArrival(s, d)); }
    case DeliverPut(d) => if PutArrives(s, d) { PutReplyLively(s, PutArrival(s, d)); }
    case DeliverRebase(d) => if RebaseArrives(s, d) { RebaseReplyLively(s, RebaseArrival(s, d)); }
    case DeliverDelete(d) => if DeleteArrives(s, d) { DeleteReplyLively(s, DeleteArrival(s, d)); }
    case _ =>
  }

  lemma ServerLively(me: nat, w: World, e: Event)
    requires Lively(w.client)
    ensures !Stalled(OnServer(me, w, e).client)
  {
  }

  /** A step stalls autosave exactly when it settles a removal that did not end 'cleared' while unsaved work
      has nothing else in its way. */
  lemma StallsExactly(me: nat, w: World, e: Event)
    requires Local(w.client) && !Stalled(w.client)
    ensures Stalled(Step(me, w, e).client) <==> Stalls(w.client, e)
  {
    var s := Quiet(w.client);
    assert Lively(s) && Stalls(s, e) == Stalls(w.client, e);
    if e.Flush? { FlushLively(s, e.epoch, e.attempts); }
    else if IsAction(e) { ActionLively(s, e); }
    else if IsReply(e) { ReplyExactly(s, e); }
    else { ServerLively(me, World(w.server, s), e); }
  }

  /** After the first `k` events of a run. */
  predicate StalledAt(me: nat, w: World, events: seq<Event>, k: nat)
    requires k <= |events|
  {
    Stalled(Run(me, w, events[..k]).client)
  }

  predicate StallsAt(me: nat, w: World, events: seq<Event>, k: nat)
    requires k < |events|
  {
    Stalls(Run(me, w, events[..k]).client, events[k])
  }

  lemma RunStallsExactly(me: nat, w: World, events: seq<Event>, k: nat)
    requires DraftTheorems.Begins(me, w) && k < |events|
    ensures !StalledAt(me, w, events, k) ==> (StalledAt(me, w, events, k + 1) <==> StallsAt(me, w, events, k))
  {
    DraftTheorems.BeginsInv(me, w);
    DraftTheorems.RunKeepsInv(me, w, events[..k]);
    if !StalledAt(me, w, events, k) { StallsExactly(me, Run(me, w, events[..k]), events[k]); }
    assert events[..k + 1][..k] == events[..k];
  }

  lemma StartsLively(me: nat, w: World, events: seq<Event>)
    requires DraftTheorems.Begins(me, w)
    ensures !StalledAt(me, w, events, 0)
  {
    assert events[..0] == [];
  }

  /** The step after the first `k` events stalled autosave, and it has been stalled ever since. */
  predicate StalledFrom(me: nat, w: World, events: seq<Event>, k: nat, n: nat)
    requires k < n <= |events|
  {
    StallsAt(me, w, events, k) && !StalledAt(me, w, events, k) && forall j | k < j <= n :: StalledAt(me, w, events, j)
  }

  predicate SinceRemoval(me: nat, w: World, events: seq<Event>, n: nat)
    requires n <= |events|
  {
    exists k :: 0 <= k < n && StalledFrom(me, w, events, k, n)
  }

  lemma StillStalled(me: nat, w: World, events: seq<Event>, n: nat)
    requires 0 < n <= |events| && StalledAt(me, w, events, n)
    requires SinceRemoval(me, w, events, n - 1)
    ensures SinceRemoval(me, w, events, n)
  {
    var k :| 0 <= k < n - 1 && StalledFrom(me, w, events, k, n - 1);
    assert StalledFrom(me, w, events, k, n);
  }

  lemma NewlyStalled(me: nat, w: World, events: seq<Event>, k: nat)
    requires DraftTheorems.Begins(me, w) && k < |events|
    requires !StalledAt(me, w, events, k) && StalledAt(me, w, events, k + 1)
    ensures StalledFrom(me, w, events, k, k + 1)
  {
    RunStallsExactly(me, w, events, k);
  }

  /** In every run, autosave is stalled exactly if such a removal has settled and it has been stalled ever
      since. */
  lemma {:induction false} StalledSinceRemoval(me: nat, w: World, events: seq<Event>, n: nat)
    requires DraftTheorems.Begins(me, w) && n <= |events|
    ensures StalledAt(me, w, events, n) <==> SinceRemoval(me, w, events, n)
  {
    if n == 0 {
      StartsLively(me, w, events);
    } else if StalledAt(me, w, events, n) {
      StalledSinceRemoval(me, w, events, n - 1);
      if StalledAt(me, w, events, n - 1) { StillStalled(me, w, events, n); }
      else { NewlyStalled(me, w, events, n - 1); }
    }
  }
}
