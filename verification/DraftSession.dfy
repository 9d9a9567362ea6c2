/** The draft controller as it runs: variables updated in place, one method for each stretch of code
    between two awaits, each proved to do what the controller's state machine says. */
module DraftSession {
  import opened Numbers
  import opened DraftController

  class Session {
    var authorized: bool
    var state: View
    var active: bool
    var epoch: nat
    var known: bool
    var restoring: bool
    var dirty: bool
    var uncertainWrite: bool
    var edit: nat
    var savedEdit: nat
    var timer: bool
    var saving: bool
    var deleting: bool
    var rebasing: bool

    function Now(): Control
      reads this
    {
      Control(active, epoch, authorized, known, restoring, dirty, uncertainWrite, edit, savedEdit, timer, saving,
          deleting, rebasing, state)
    }

    constructor (authorized: bool)
      ensures Now() == Fresh(authorized)
    {
      this.authorized := authorized;
      state := EmptyView(if authorized then Loading else Idle);
      active, epoch, known, restoring, dirty, uncertainWrite := false, 0, false, false, false, false;
      edit, savedEdit, timer, saving, deleting, rebasing := 0, 0, false, false, false, false;
    }

    predicate Current(requestEpoch: nat)
      reads this
    {
      active && requestEpoch == epoch && authorized
    }

    method DropDenied()
      modifies this
      ensures Now() == ClearDenied(old(Now()))
    {
      known := false;
      dirty := false;
      state := EmptyView(Error);
    }

    method Arm()
      modifies this`timer
      ensures Now() == Schedule(old(Now()))
    {
      timer := false;
      if !Current(epoch) || !known || !dirty || restoring || saving || deleting || rebasing ||
          state.status == Conflict || !WithinBounds(state.content) {
        return;
      }
      timer := true;
    }

    method Restore() returns (sent: bool)
      modifies this
      ensures Now() == DraftController.Restore(old(Now())) && sent == CanRestore(old(Now()))
    {
      if !Current(epoch) || restoring || saving || deleting || rebasing || state.status == Conflict {
        return false;
      }
      restoring := true;
      known := false;
      state := state.(status := Loading);
      return true;
    }

    method Mark(status: Status)
      modifies this`state
      ensures Now() == old(Now()).(view := old(state).(status := status))
    {
      state := state.(status := status);
    }

    /** Content on screen is kept and gets the version of `received`. */
    method Keep(received: View)
      modifies this`state
      ensures Now() == old(Now()).(view := KeepContent(old(Now()), received.version, received.base))
    {
      state := state.(version := received.version, base := received.base,
                      status := if WithinBounds(state.content) then Unsaved else Error);
    }

    method Take(restored: View)
      modifies this
      ensures Now() == Restored(old(Now()), restored)
    {
      known := true;
      if dirty {
        Keep(restored);
      } else {
        savedEdit := edit;
        state := restored;
      }
    }

    method TakeRead(reply: ReadReply)
      modifies this
      ensures Now() == ReadTaken(old(Now()), reply)
    {
      if reply.ReadRow? || reply.ReadNothing? {
        Take(if reply.ReadRow? then ToStored(reply.stored) else EmptyView(Idle));
      } else if reply.ReadDenied? {
        DropDenied();
      } else {
        state := state.(status := Error);
      }
    }

    method EndRestore()
      modifies this
      ensures var c := old(Now()).(restoring := false); Now() == if c.known then Schedule(c) else c
    {
      restoring := false;
      if known { Arm(); }
    }

    method RestoreReplied(requestEpoch: nat, reply: ReadReply)
      modifies this
      ensures Now() == RestoreReply(old(Now()), requestEpoch, reply)
    {
      if !Current(requestEpoch) { return; }
      TakeRead(reply);
      EndRestore();
    }

    method SaveNow() returns (sent: bool, request: PutRequest)
      modifies this
      ensures Now() == DraftController.SaveNow(old(Now())) && sent == CanSave(old(Now()))
      ensures sent ==> request == PutFor(old(Now()))
    {
      request := PutRequest(epoch, state, edit);
      sent := false;
      timer := false;
      if !Current(epoch) { return; }
      if saving { return; }
      if !known || !dirty || restoring || deleting || rebasing || state.status == Conflict ||
          !WithinBounds(state.content) { return; }
      state := state.(status := Saving);
      saving := true;
      sent := true;
    }

    method Confirm(submittedEdit: nat, stored: Stored)
      modifies this
      ensures Now() == SaveConfirmed(old(Now()), submittedEdit, stored)
    {
      uncertainWrite := false;
      savedEdit := submittedEdit;
      dirty := edit != submittedEdit;
      if dirty {
        Keep(ToStored(stored));
      } else {
        state := ToStored(stored);
      }
    }

    method TakeSaved(q: PutRequest, reply: WriteReply) returns (succeeded: bool)
      modifies this
      ensures Now() == SaveTaken(old(Now()), q, reply) && succeeded == Confirms(q, reply)
    {
      succeeded := false;
      if reply.Written? && ToStored(reply.stored).content.format == q.snapshot.content.format {
        succeeded := true;
        Confirm(q.submittedEdit, reply.stored);
      } else if reply.WriteDenied? {
        DropDenied();
      } else {
        uncertainWrite := true;
        Mark(if reply.WriteClash? then Conflict else Error);
      }
    }

    method EndSave(succeeded: bool)
      modifies this
      ensures var c := old(Now()).(saving := false); Now() == if succeeded then Schedule(c) else c
    {
      ghost var released := Now().(saving := false);
      saving := false;
      assert Now() == released;
      if succeeded { Arm(); }
    }

    method SaveReplied(q: PutRequest, reply: WriteReply)
      modifies this
      ensures Now() == SaveReply(old(Now()), q, reply)
    {
      if !Current(q.epoch) { return; }
      var succeeded := TakeSaved(q, reply);
      EndSave(succeeded);
    }

    method Update(next: Content, base: nat)
      modifies this
      ensures Now() == DraftController.Update(old(Now()), next, base)
    {
      if !Current(epoch) { return; }
      edit := edit + 1;
      dirty := true;
      timer := false;
      var blocked := state.status == Conflict || !known;
      var status := if blocked then state.status else if WithinBounds(next) then Unsaved else Error;
      state := View(next, base, status, state.version);
      Arm();
    }

    method Rebase(reviewed: int) returns (sent: bool, request: RebaseRequest)
      modifies this
      ensures Now() == DraftController.Rebase(old(Now()), reviewed) && sent == CanRebase(old(Now()), reviewed)
      ensures sent ==> request == RebaseFor(old(Now()), reviewed)
    {
      request := RebaseRequest(epoch, state.version, if reviewed < 0 then 0 else reviewed, edit);
      sent := false;
      if !Current(epoch) || !known || dirty || restoring || saving || deleting || rebasing || state.version == Absent
         || reviewed > MAX_SAFE_INTEGER || reviewed < 0 {
        return;
      }
      rebasing := true;
      state := state.(status := Saving);
      sent := true;
    }

    method Accept(submittedEdit: nat, stored: Stored)
      modifies this
      ensures Now() == RebaseAccepted(old(Now()), submittedEdit, stored)
    {
      if edit != submittedEdit {
        dirty := true;
        Keep(ToStored(stored));
      } else {
        savedEdit := submittedEdit;
        dirty := false;
        state := ToStored(stored);
      }
    }

    method TakeRebased(q: RebaseRequest, reply: WriteReply)
      modifies this
      ensures Now() == RebaseTaken(old(Now()), q, reply)
    {
      if reply.Written? {
        Accept(q.submittedEdit, reply.stored);
      } else if reply.WriteDenied? {
        DropDenied();
      } else {
        Mark(if reply.WriteClash? then Conflict else Error);
      }
    }

    method EndRebase()
      modifies this
      ensures Now() == Schedule(old(Now()).(rebasing := false))
    {
      rebasing := false;
      Arm();
    }

    method RebaseReplied(q: RebaseRequest, reply: WriteReply) returns (done: bool)
      modifies this
      ensures Now() == RebaseReply(old(Now()), q, reply)
      ensures done == (IsCurrent(old(Now()), q.epoch) && reply.Written?)
    {
      if !Current(q.epoch) { return false; }
      TakeRebased(q, reply);
      EndRebase();
      done := reply.Written?;
    }

    /** The part of a removal at the click: `mustWait` for the save in flight. */
    method Remove(requested: Version) returns (accepted: bool, removal: Removal, mustWait: bool)
      modifies this
      ensures Now() == DraftController.Remove(old(Now())) && accepted == CanRemove(old(Now()))
      ensures accepted ==> removal == RemovalFor(old(Now()), requested) && mustWait == old(saving)
    {
      removal := Removal(epoch, if requested != Absent then savedEdit else edit, requested);
      mustWait := saving;
      accepted := false;
      if !Current(epoch) || !known || restoring { return; }
      if deleting { return; }
      timer := false;
      deleting := true;
      accepted := true;
    }

    method Erase(q: Removal)
      modifies this
      ensures Now() == Clear(old(Now()), q)
    {
      dirty := edit != q.clearedEdit;
      if dirty {
        state := state.(version := Absent, status := if WithinBounds(state.content) then Unsaved else Error);
      } else {
        savedEdit := edit;
        state := EmptyView(Discarded);
      }
    }

    method RemoveResumes(q: Removal) returns (step: RemoveStep)
      modifies this
      ensures Now() == RemoveResume(old(Now()), q) && step == RemoveNext(old(Now()), q)
    {
      if !Current(q.epoch) { return Finish(Errored); }
      var version := if q.requested != Absent then q.requested else state.version;
      if version == Absent && uncertainWrite {
        return Finish(if state.status == Conflict then Conflicted else Errored);
      }
      if version != Absent { return Send(version); }
      Erase(q);
      return Finish(Cleared);
    }

    method RemoveReplied(q: Removal, version: Version, reply: DeleteReply) returns (result: CleanupResult)
      modifies this
      ensures Now() == RemoveReply(old(Now()), q, version, reply) && result == RemoveResult(old(Now()), q, reply)
    {
      if !Current(q.epoch) { return Errored; }
      if reply.Deleted? {
        if state.version == version { Erase(q); }
        return Cleared;
      }
      if reply.DeleteDenied? {
        DropDenied();
        return Errored;
      }
      if state.version == version {
        Mark(if reply.DeleteClash? then Conflict else Error);
      }
      return if reply.DeleteClash? then Conflicted else Errored;
    }

    method RemoveSettles(q: Removal, result: CleanupResult)
      modifies this
      ensures Now() == RemoveSettled(old(Now()), q, result)
    {
      if Current(q.epoch) {
        deleting := false;
        if result == Cleared { Arm(); }
      }
    }

    method Start() returns (sent: bool)
      modifies this
      ensures Now() == DraftController.Restore(Activate(old(Now()))) && sent == CanRestore(Activate(old(Now())))
    {
      active := true;
      epoch := epoch + 1;
      restoring := false;
      sent := Restore();
    }

    method Leave()
      modifies this
      ensures Now() == Stop(old(Now()))
    {
      active := false;
      epoch := epoch + 1;
      timer := false;
    }

    /** One stretch of a flush; when the answer is still open, the save it waits for may have been sent. */
    method Flush(requestEpoch: nat, attempts: nat) returns (step: FlushStep, sent: bool, request: PutRequest)
      modifies this
      ensures step == FlushNext(old(Now()), requestEpoch, attempts)
      ensures Now() == if step.Decided? then old(Now()) else DraftController.SaveNow(old(Now()))
      ensures sent == (step.AwaitSave? && CanSave(old(Now()))) && (sent ==> request == PutFor(old(Now())))
    {
      sent, request := false, PutRequest(epoch, state, edit);
      if attempts > 0 && (!Current(requestEpoch) || state.status == Error || state.status == Conflict) {
        return Decided(false), sent, request;
      }
      if attempts >= 2 {
        return Decided(Current(requestEpoch) && known && !dirty && !saving && !deleting), sent, request;
      }
      if !Current(requestEpoch) || deleting || rebasing || state.status == Error || state.status == Conflict ||
          !WithinBounds(state.content) {
        return Decided(false), sent, request;
      }
      if !known || restoring {
        return Decided(!dirty), sent, request;
      }
      if !dirty && !saving {
        return Decided(true), sent, request;
      }
      step := AwaitSave;
      sent, request := SaveNow();
    }
  }
}
