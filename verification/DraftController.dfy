/** The operator-draft controller: its state and every stretch of code between two awaits. */
module DraftController {
  import opened Numbers
  import opened Sequences

  datatype Mode = Public | Internal

  datatype Format = Plain | Markdown

  datatype Attachment = Attachment(storageKey: string, filename: string, size: nat, contentType: string)

  /** `body` is the UTF-8 encoding of the text. */
  datatype Content = Content(mode: Mode, body: seq<bv8>, format: Format, attachments: seq<Attachment>,
      mentions: seq<string>)

  /** `Absent` is the source's null version: no stored draft. */
  datatype Version = Absent | Version(generation: nat, revision: nat)

  datatype Stored = Stored(version: Version, content: Content, base: nat)

  datatype Status = Idle | Loading | Unsaved | Saving | Saved | Error | Conflict | Discarded

  datatype View = View(content: Content, base: nat, status: Status, version: Version)

  // Replies as the controller classifies them: denied is 401, 403 or 404, clash is 409, and failed
  // every other error, a lost or malformed reply included.
  datatype ReadReply = ReadRow(stored: Stored) | ReadNothing | ReadDenied | ReadFailed
  datatype WriteReply = Written(stored: Stored) | WriteDenied | WriteClash | WriteFailed
  datatype DeleteReply = Deleted | DeleteDenied | DeleteClash | DeleteFailed

  datatype CleanupResult = Cleared | Conflicted | Errored

  const EMPTY := Content(Public, [], Markdown, [], [])

  predicate WithinBounds(v: Content) {
    |v.attachments| <= 10 && |v.mentions| <= 16 && Distinct(v.mentions) && |v.body| <= 16000
  }

  function EmptyView(status: Status): View {
    View(EMPTY, 0, status, Absent)
  }

  function ToStored(s: Stored): View {
    View(s.content, s.base, Saved, s.version)
  }

  /** `authorized`: the session identity is still the one the controller was made for. */
  datatype Control = Control(
    active: bool, epoch: nat, authorized: bool,
    known: bool, restoring: bool, dirty: bool, uncertain: bool,
    edit: nat, savedEdit: nat, timer: bool,
    saving: bool, deleting: bool, rebasing: bool, view: View)

  // What an asynchronous continuation has captured.
  datatype PutRequest = PutRequest(epoch: nat, snapshot: View, submittedEdit: nat)
  datatype RebaseRequest = RebaseRequest(epoch: nat, version: Version, reviewed: nat, submittedEdit: nat)
  datatype Removal = Removal(epoch: nat, clearedEdit: nat, requested: Version)

  function Fresh(authorized: bool): Control {
    Control(false, 0, authorized, false, false, false, false, 0, 0, false, false, false, false,
            EmptyView(if authorized then Loading else Idle))
  }

  predicate IsCurrent(c: Control, requestEpoch: nat) {
    c.active && requestEpoch == c.epoch && c.authorized
  }

  predicate Free(c: Control) {
    !c.restoring && !c.saving && !c.deleting && !c.rebasing
  }

  function ClearDenied(c: Control): Control {
    c.(known := false, dirty := false, view := EmptyView(Error))
  }

  function Unsynced(v: Content): Status {
    if WithinBounds(v) then Unsaved else Error
  }

  /** The content on screen stays; its version and base become those just received. */
  function KeepContent(c: Control, version: Version, base: nat): View {
    c.view.(version := version, base := base, status := Unsynced(c.view.content))
  }

  /** The condition under which a save would go out. */
  predicate CanSave(c: Control) {
    IsCurrent(c, c.epoch) && c.known && c.dirty && Free(c) && c.view.status != Conflict && WithinBounds(c.view.content)
  }

  function Schedule(c: Control): Control {
    c.(timer := CanSave(c))
  }

  predicate CanRestore(c: Control) {
    IsCurrent(c, c.epoch) && Free(c) && c.view.status != Conflict
  }

  function Restore(c: Control): Control {
    if CanRestore(c) then c.(restoring := true, known := false, view := c.view.(status := Loading)) else c
  }

  function Restored(c: Control, view: View): Control {
    c.(known := true, savedEdit := if c.dirty then c.savedEdit else c.edit,
       view := if c.dirty then KeepContent(c, view.version, view.base) else view)
  }

  /** What a read brings, before the restore ends. */
  function ReadTaken(c: Control, reply: ReadReply): Control {
    match reply
    case ReadRow(stored) => Restored(c, ToStored(stored))
    case ReadNothing => Restored(c, EmptyView(Idle))
    case ReadDenied => ClearDenied(c)
    case ReadFailed => c.(view := c.view.(status := Error))
  }

  function RestoreReply(c: Control, requestEpoch: nat, reply: ReadReply): Control {
    if !IsCurrent(c, requestEpoch) then c else
    var after := ReadTaken(c, reply).(restoring := false);
    after.(timer := if after.known then CanSave(after) else after.timer)
  }

  /** The timer is cancelled in any case; when `CanSave` holds, the PUT goes out. */
  function SaveNow(c: Control): Control {
    if CanSave(c) then c.(timer := false, saving := true, view := c.view.(status := Saving)) else c.(timer := false)
  }

  function PutFor(c: Control): PutRequest {
    PutRequest(c.epoch, c.view, c.edit)
  }

  /** The reply to a PUT counts only if it confirms the format that was sent. */
  predicate Confirms(q: PutRequest, reply: WriteReply) {
    reply.Written? && reply.stored.content.format == q.snapshot.content.format
  }

  /** A confirmed save. */
  function SaveConfirmed(c: Control, submittedEdit: nat, s: Stored): Control {
    c.(uncertain := false, savedEdit := submittedEdit, dirty := c.edit != submittedEdit,
       view := if c.edit != submittedEdit then KeepContent(c, s.version, s.base) else ToStored(s))
  }

  /** What the reply to a PUT brings, before the save ends. */
  function SaveTaken(c: Control, q: PutRequest, reply: WriteReply): Control {
    if Confirms(q, reply) then SaveConfirmed(c, q.submittedEdit, reply.stored)
    else if reply.WriteDenied? then ClearDenied(c)
    else c.(uncertain := true, view := c.view.(status := if reply.WriteClash? then Conflict else Error))
  }

  function SaveReply(c: Control, q: PutRequest, reply: WriteReply): Control {
    if !IsCurrent(c, q.epoch) then c else
    var after := SaveTaken(c, q, reply).(saving := false);
    after.(timer := if Confirms(q, reply) then CanSave(after) else after.timer)
  }

  function Update(c: Control, next: Content, base: nat): Control {
    if !IsCurrent(c, c.epoch) then c else
    var blocked := c.view.status == Conflict || !c.known;
    Schedule(c.(edit := c.edit + 1, dirty := true,
                view := View(next, base, if blocked then c.view.status else Unsynced(next), c.view.version)))
  }

  predicate CanRebase(c: Control, reviewed: int) {
    IsCurrent(c, c.epoch) && c.known && !c.dirty && Free(c) && c.view.version != Absent &&
        0 <= reviewed <= MAX_SAFE_INTEGER
  }

  function Rebase(c: Control, reviewed: int): Control {
    if CanRebase(c, reviewed) then c.(rebasing := true, view := c.view.(status := Saving)) else c
  }

  function RebaseFor(c: Control, reviewed: nat): RebaseRequest {
    RebaseRequest(c.epoch, c.view.version, reviewed, c.edit)
  }

  /** A rebase that succeeded; text edited while it was in flight is kept. */
  function RebaseAccepted(c: Control, submittedEdit: nat, s: Stored): Control {
    var edited := c.edit != submittedEdit;
    c.(savedEdit := if edited then c.savedEdit else submittedEdit, dirty := edited,
       view := if edited then KeepContent(c, s.version, s.base) else ToStored(s))
  }

  /** What the reply to a rebase brings, before the rebase ends. */
  function RebaseTaken(c: Control, q: RebaseRequest, reply: WriteReply): Control {
    if reply.Written? then RebaseAccepted(c, q.submittedEdit, reply.stored)
    else if reply.WriteDenied? then ClearDenied(c)
    else c.(view := c.view.(status := if reply.WriteClash? then Conflict else Error))
  }

  function RebaseReply(c: Control, q: RebaseRequest, reply: WriteReply): Control {
    if !IsCurrent(c, q.epoch) then c else Schedule(RebaseTaken(c, q, reply).(rebasing := false))
  }

  /** Otherwise the removal is answered 'error' at the door. */
  predicate CanRemove(c: Control) {
    IsCurrent(c, c.epoch) && c.known && !c.restoring && !c.deleting
  }

  function Remove(c: Control): Control {
    if CanRemove(c) then c.(timer := false, deleting := true) else c
  }

  /** Discard covers the edits present at the click, cleanup after a send only the saved copy. */
  function RemovalFor(c: Control, requested: Version): Removal {
    Removal(c.epoch, if requested != Absent then c.savedEdit else c.edit, requested)
  }

  /** Local effect of a removal that succeeded. */
  function Clear(c: Control, q: Removal): Control {
    var edited := c.edit != q.clearedEdit;
    c.(dirty := edited, savedEdit := if edited then c.savedEdit else c.edit,
       view := if edited then c.view.(version := Absent, status := Unsynced(c.view.content)) else EmptyView(Discarded))
  }

  function TargetOf(c: Control, q: Removal): Version {
    if q.requested != Absent then q.requested else c.view.version
  }

  /** How a removal goes on after its wait: with a DELETE, or straight to a result. */
  datatype RemoveStep = Send(version: Version) | Finish(result: CleanupResult)

  function RemoveNext(c: Control, q: Removal): RemoveStep {
    if !IsCurrent(c, q.epoch) then Finish(Errored)
    else if TargetOf(c, q) != Absent then Send(TargetOf(c, q))
    else if c.uncertain then Finish(if c.view.status == Conflict then Conflicted else Errored)
    else Finish(Cleared)
  }

  function RemoveResume(c: Control, q: Removal): Control {
    if RemoveNext(c, q) == Finish(Cleared) then Clear(c, q) else c
  }

  function RemoveResult(c: Control, q: Removal, reply: DeleteReply): CleanupResult {
    if !IsCurrent(c, q.epoch) then Errored
    else match reply
      case Deleted => Cleared
      case DeleteClash => Conflicted
      case _ => Errored
  }

  function RemoveReply(c: Control, q: Removal, version: Version, reply: DeleteReply): Control {
    if !IsCurrent(c, q.epoch) then c
    else if reply.DeleteDenied? then ClearDenied(c)
    else if c.view.version != version then c
    else if reply.Deleted? then Clear(c, q)
    else c.(view := c.view.(status := if reply.DeleteClash? then Conflict else Error))
  }

  function RemoveSettled(c: Control, q: Removal, result: CleanupResult): Control {
    if !IsCurrent(c, q.epoch) then c
    else if result == Cleared then Schedule(c.(deleting := false))
    else c.(deleting := false)
  }

  function Activate(c: Control): Control {
    c.(active := true, epoch := c.epoch + 1, restoring := false)
  }

  function Stop(c: Control): Control {
    c.(active := false, epoch := c.epoch + 1, timer := false)
  }

  // ---- Flushing before navigation ----

  /** Decided, or waiting for the save that was just requested or was already in flight. */
  datatype FlushStep = Decided(mayLeave: bool) | AwaitSave

  predicate FlushFailed(c: Control) {
    c.view.status == Error || c.view.status == Conflict
  }

  /** The head of the loop, up to `await saveNow()`. */
  function FlushTry(c: Control, requestEpoch: nat): FlushStep {
    if !IsCurrent(c, requestEpoch) || c.deleting || c.rebasing || FlushFailed(c) || !WithinBounds(c.view.content)
        then Decided(false)
    else if !c.known || c.restoring then Decided(!c.dirty)
    else if !c.dirty && !c.saving then Decided(true)
    else AwaitSave
  }

  /** One stretch of a flush that has made `attempts` save attempts so far. */
  function FlushNext(c: Control, requestEpoch: nat, attempts: nat): FlushStep {
    if attempts == 0 then FlushTry(c, requestEpoch)
    else if !IsCurrent(c, requestEpoch) || FlushFailed(c) then Decided(false)
    else if attempts < 2 then FlushTry(c, requestEpoch)
    else Decided(c.known && !c.dirty && !c.saving && !c.deleting)
  }

  /** Replies to an earlier activation's requests change nothing. */
  lemma LateRepliesChangeNothing(c: Control, epoch: nat, read: ReadReply, p: PutRequest, b: RebaseRequest,
      write: WriteReply, d: Removal, v: Version, delete: DeleteReply, result: CleanupResult)
    requires epoch == p.epoch == b.epoch == d.epoch != c.epoch
    ensures RestoreReply(c, epoch, read) == c
    ensures SaveReply(c, p, write) == c
    ensures RebaseReply(c, b, write) == c
    ensures RemoveNext(c, d) == Finish(Errored) && RemoveResume(c, d) == c
    ensures RemoveReply(c, d, v, delete) == c && RemoveResult(c, d, delete) == Errored
    ensures RemoveSettled(c, d, result) == c
    ensures forall attempts: nat :: FlushNext(c, epoch, attempts) == Decided(false)
  {
  }
}
