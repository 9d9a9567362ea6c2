/** Exactly which steps of the draft protocol put the edit counters out of step with what is unsaved. */
module DraftMiscounts {
  import opened DraftController
  import opened DraftProtocol
  import opened DraftInvariants
  import opened DraftCounters

  /** A success finds an edit that it does not cover, though all edits count as saved. */
  predicate Misses(s: Client, covered: nat) {
    s.c.edit != covered && s.c.savedEdit == s.c.edit
  }

  predicate RebaseMiscounts(s: Client, reply: WriteReply) {
    && !s.reb.NoRebase? && IsCurrent(s.c, s.reb.request.epoch) && reply.Written?
    && Misses(s, s.reb.request.submittedEdit)
  }

  predicate DeleteMiscounts(s: Client, reply: DeleteReply) {
    && (s.rem.DeleteSent? || s.rem.DeleteServed?) && IsCurrent(s.c, s.rem.request.epoch)
    && reply.Deleted? && s.c.view.version == s.rem.version && Misses(s, s.rem.request.clearedEdit)
  }

  predicate ClearMiscounts(s: Client, q: Removal) {
    RemoveNext(s.c, q) == Finish(Cleared) && Misses(s, q.clearedEdit)
  }

  predicate Miscounts(s: Client, e: Event) {
    match e
    case DeliverRebase(d) => RebaseArrives(s, d) && RebaseMiscounts(s, RebaseArrival(s, d))
    case DeliverDelete(d) => DeleteArrives(s, d) && DeleteMiscounts(s, DeleteArrival(s, d))
    case CleanupContinues => s.rem.Waiting? && s.put.NoPut? && ClearMiscounts(s, s.rem.request)
    case _ => false
  }

  ghost predicate Counts(s: Client) {
    Counting(s) && CountsEdits(s)
  }

  lemma ActionCounts(s: Client, e: Event)
    requires Counts(s)
    ensures CountsEdits(OnAction(s, e))
  {
  }

  lemma FlushCounts(s: Client, epoch: nat, attempts: nat)
    requires CountsEdits(s)
    ensures CountsEdits(OnFlush(s, epoch, attempts))
  {
  }

  lemma GetReplyCounts(s: Client, epoch: nat, reply: ReadReply)
    requires Counts(s)
    ensures CountsEdits(GetReplyTaken(s, epoch, reply))
  {
  }

  lemma PutReplyCounts(s: Client, reply: WriteReply)
    requires Counts(s) && !s.put.NoPut?
    ensures CountsEdits(PutReplyTaken(s, s.put.request, reply))
  {
    var q, t := s.put.request, PutReplyTaken(s, s.put.request, reply);
    if IsCurrent(s.c, q.epoch) {
      SaveTakenCounts(s, q, reply);
      assert SameCount(t.c, SaveTaken(s.c, q, reply));
    } else {
      assert t.c == s.c;
    }
  }

  predicate SameCount(c: Control, t: Control) {
    c.dirty == t.dirty && c.known == t.known && c.edit == t.edit && c.savedEdit == t.savedEdit
  }

  lemma SaveTakenCounts(s: Client, q: PutRequest, reply: WriteReply)
    requires CountsEdits(s) && q.submittedEdit <= s.c.edit
    ensures CountsEdits(s.(c := SaveTaken(s.c, q, reply)))
  {
    if Confirms(q, reply) {
      assert SaveTaken(s.c, q, reply).savedEdit == q.submittedEdit;
    } else if !reply.WriteDenied? {
      assert SameCount(SaveTaken(s.c, q, reply), s.c);
    }
  }

  lemma RebaseReplyCounts(s: Client, reply: WriteReply)
    requires Counts(s) && !s.reb.NoRebase?
    ensures CountsEdits(RebaseReplyTaken(s, s.reb.request, reply)) <==> !RebaseMiscounts(s, reply)
  {
    var q, t := s.reb.request, RebaseReplyTaken(s, s.reb.request, reply);
    if IsCurrent(s.c, q.epoch) {
      assert SameCount(t.c, RebaseTaken(s.c, q, reply));
    }
  }

  lemma DeleteReplyCounts(s: Client, reply: DeleteReply)
    requires Counts(s) && (s.rem.DeleteSent? || s.rem.DeleteServed?)
    ensures CountsEdits(DeleteReplyTaken(s, s.rem.request, s.rem.version, reply)) <==> !DeleteMiscounts(s, reply)
  {
    var q, t := s.rem.request, DeleteReplyTaken(s, s.rem.request, s.rem.version, reply);
    assert t.c == RemoveReply(s.c, q, s.rem.version, reply);
    if IsCurrent(s.c, q.epoch) && reply.Deleted? && s.c.view.version == s.rem.version {
      assert t.c == Clear(s.c, q);
    }
  }

  lemma ContinueCounts(s: Client, q: Removal)
    requires CountsEdits(s) && s.c.savedEdit <= s.c.edit
    ensures CountsEdits(Continue(s, q)) <==> !ClearMiscounts(s, q)
  {
    assert Continue(s, q).c == if RemoveNext(s.c, q) == Finish(Cleared) then Clear(s.c, q) else s.c;
  }

  lemma DiscardCounts(s: Client, requested: Version)
    requires Counts(s)
    ensures CountsEdits(OnDiscard(s, requested))
  {
    if CanRemove(s.c) { ContinueCounts(Begin(s), RemovalFor(s.c, requested)); }
  }

  lemma CleanupCounts(s: Client, e: Event)
    requires Counts(s) && (e.Discard? || e.CleanupContinues? || e.CleanupSettles?)
    ensures CountsEdits(OnReply(s, e)) <==> !Miscounts(s, e)
  {
    if e.Discard? { DiscardCounts(s, e.requested); }
    else if e.CleanupContinues? && s.rem.Waiting? { ContinueCounts(s, s.rem.request); }
  }

  lemma DeliveryCounts(s: Client, e: Event)
    requires Counts(s) && !(e.Discard? || e.CleanupContinues? || e.CleanupSettles?)
    ensures CountsEdits(OnReply(s, e)) <==> !Miscounts(s, e)
  {
    match e
    case DeliverGet(d) => if GetArrives(s, d) { GetReplyCounts(s, s.get.epoch, GetArrival(s, d)); }
    case DeliverPut(d) => if PutArrives(s, d) { PutReplyCounts(s, PutArrival(s, d)); }
    case DeliverRebase(d) => if RebaseArrives(s, d) { RebaseReplyCounts(s, RebaseArrival(s, d)); }
    case DeliverDelete(d) => if DeleteArrives(s, d) { DeleteReplyCounts(s, DeleteArrival(s, d)); }
    case _ =>
  }

  lemma ServerCounts(me: nat, w: World, e: Event)
    requires CountsEdits(w.client)
    ensures CountsEdits(OnServer(me, w, e).client)
  {
  }

  /** From a state whose counters are right, a step leads to one whose counters are not exactly when a success
      finds an edit that it does not cover though all edits count as saved. */
  lemma MiscountsExactly(me: nat, w: World, e: Event)
    requires Local(w.client) && CountsEdits(w.client)
    ensures CountsEdits(Step(me, w, e).client) <==> !Miscounts(w.client, e)
  {
    var s := Quiet(w.client);
    assert Counts(s) && Miscounts(s, e) == Miscounts(w.client, e);
    if e.Flush? { FlushCounts(s, e.epoch, e.attempts); }
    else if IsAction(e) { ActionCounts(s, e); }
    else if e.Discard? || e.CleanupContinues? || e.CleanupSettles? { CleanupCounts(s, e); }
    else if IsReply(e) { DeliveryCounts(s, e); }
    else { ServerCounts(me, World(w.server, s), e); }
  }
}
