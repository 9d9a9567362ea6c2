/** One draft controller against the server, other sessions and an unreliable network. A step is one
    stretch of controller code, one effect of a request, one delivery, or a change made by others. */
module DraftProtocol {
  import opened DraftController
  import opened DraftServer

  // A request of the current activation: sent, then dealt with by the server, then delivered.
  datatype Reading = NoGet | GetSent(epoch: nat) | GetServed(epoch: nat, reply: ReadReply)
  datatype Putting = NoPut | PutSent(request: PutRequest) | PutServed(request: PutRequest, reply: WriteReply)
  datatype Rebasing =
    | NoRebase
    | RebaseSent(request: RebaseRequest)
    | RebaseServed(request: RebaseRequest, reply: WriteReply)

  /** A removal waits for the save it found in flight, then deletes, then has a result that still has
      to be settled. */
  datatype Removing =
    | NoRemoval
    | Waiting(request: Removal)
    | DeleteSent(request: Removal, version: Version)
    | DeleteServed(request: Removal, version: Version, reply: DeleteReply)
    | Finished(request: Removal, result: CleanupResult)

  datatype Fate = Pending | Acknowledged | Removed | Dropped

  /** What an observer remembers. `fates[k]` is what became of edit `k + 1`. The flags tell whether a
      denied reply was ever received, whether an activation ever ended with a save, removal or rebase under
      way, and whether all removals of this activation ended 'cleared'. */
  datatype History = History(
    lastUpdate: Content, lastReply: Content, receipts: set<Version>, fates: seq<Fate>,
    denied: bool, leftover: bool, allCleared: bool)

  datatype Verdict = NoVerdict | Resolved(result: CleanupResult) | Flushed(mayLeave: bool)

  /** `stale`: requests of earlier activations the server may still receive. `verdict` reports what the
      last step answered to a removal or a flush. */
  datatype Client = Client(c: Control, get: Reading, put: Putting, reb: Rebasing, rem: Removing, stale: seq<Op>,
      h: History, verdict: Verdict)

  datatype World = World(server: Server, client: Client)

  /** What reaches the client: the server's answer, no usable answer, or a denial. Before the server
      has dealt with a request only the last two are possible, and then it never will. */
  datatype Delivery = Faithful | Lost | Refused

  datatype Event =
    | Mount | Unmount | LoseAuthority
    | RetryRestore | TimerFires | RetrySave
    | Edit(content: Content, base: nat)
    | Review(revision: int)
    | Discard(requested: Version) | CleanupContinues | CleanupSettles
    | Flush(epoch: nat, attempts: nat)
    | DeliverGet(d: Delivery) | DeliverPut(d: Delivery) | DeliverRebase(d: Delivery) | DeliverDelete(d: Delivery)
    | ServeGet | ServePut(base: nat) | ServeRebase(upToDate: bool) | ServeDelete
    | ServeStale(index: nat, base: nat, upToDate: bool)
    | Foreign(who: nat, op: Op)

  const NO_HISTORY := History(EMPTY, EMPTY, {}, [], false, false, true)

  function NewClient(authorized: bool): Client {
    Client(Fresh(authorized), NoGet, NoPut, NoRebase, NoRemoval, [], NO_HISTORY, NoVerdict)
  }

  function Settle(fates: seq<Fate>, upTo: nat, fate: Fate): (r: seq<Fate>)
    ensures |r| == |fates|
    ensures forall k | 0 <= k < |r| :: r[k] == if k < upTo && fates[k] == Pending then fate else fates[k]
  {
    seq(|fates|, k requires 0 <= k < |fates| => if k < upTo && fates[k] == Pending then fate else fates[k])
  }

  // A lane that is marked busy though nothing is under way on it.
  predicate SaveStranded(s: Client) { s.c.saving && s.put.NoPut? }
  predicate RebaseStranded(s: Client) { s.c.rebasing && s.reb.NoRebase? }
  predicate RemovalStranded(s: Client) { s.c.deleting && s.rem.NoRemoval? }

  predicate Stranded(s: Client) {
    SaveStranded(s) || RebaseStranded(s) || RemovalStranded(s)
  }

  // ---- Controller steps ----

  function SendGet(s: Client): Client {
    s.(c := Restore(s.c), get := if CanRestore(s.c) then GetSent(s.c.epoch) else s.get)
  }

  function SendPut(s: Client): Client {
    s.(c := SaveNow(s.c), put := if CanSave(s.c) then PutSent(PutFor(s.c)) else s.put)
  }

  function PutOp(q: PutRequest, base: nat): Op {
    OpPut(q.snapshot.version, q.snapshot.content, base)
  }

  /** The requests still on their way when an activation ends. */
  function Abandoned(s: Client): seq<Op> {
    (if s.put.PutSent? then [PutOp(s.put.request, 0)] else [])
    + (if s.reb.RebaseSent? then [OpRebase(s.reb.request.version, s.reb.request.reviewed, true)] else [])
    + (if s.rem.DeleteSent? then [OpDelete(s.rem.version)] else [])
  }

  function OnMount(s: Client): Client {
    if s.c.active then s else SendGet(s.(c := Activate(s.c), h := s.h.(allCleared := true)))
  }

  /** A stop forgets its requests: by `LateRepliesChangeNothing` what they bring later changes nothing. */
  function OnUnmount(s: Client): Client {
    if !s.c.active then s else
    var busy := s.c.saving || s.c.deleting || s.c.rebasing;
    Client(Stop(s.c), NoGet, NoPut, NoRebase, NoRemoval, s.stale + Abandoned(s),
        s.h.(leftover := s.h.leftover || busy), s.verdict)
  }

  function OnEdit(s: Client, content: Content, base: nat): Client {
    if !IsCurrent(s.c, s.c.epoch) then s
    else s.(c := Update(s.c, content, base), h := s.h.(lastUpdate := content, fates := s.h.fates + [Pending]))
  }

  function OnReview(s: Client, revision: int): Client {
    if CanRebase(s.c, revision) then s.(c := Rebase(s.c, revision), reb := RebaseSent(RebaseFor(s.c, revision))) else s
  }

  /** The part of a removal after the wait. */
  function Continue(s: Client, q: Removal): Client {
    var step := RemoveNext(s.c, q);
    if step.Send? then s.(rem := DeleteSent(q, step.version))
    else s.(c := RemoveResume(s.c, q), rem := Finished(q, step.result), verdict := Resolved(step.result),
            h := s.h.(fates := if step.result == Cleared then Settle(s.h.fates, q.clearedEdit, Removed) else s.h.fates,
                      allCleared := s.h.allCleared && step.result == Cleared))
  }

  /** A removal accepted at the door. */
  function Begin(s: Client): Client {
    s.(c := Remove(s.c))
  }

  function OnDiscard(s: Client, requested: Version): Client {
    if !CanRemove(s.c) then s.(verdict := Resolved(Errored))
    else if s.c.saving then Begin(s).(rem := Waiting(RemovalFor(s.c, requested)))
    else Continue(Begin(s), RemovalFor(s.c, requested))
  }

  /** The wait ends once the save it waits for has returned. */
  function OnContinue(s: Client): Client {
    if s.rem.Waiting? && s.put.NoPut? then Continue(s, s.rem.request) else s
  }

  function OnSettle(s: Client): Client {
    if s.rem.Finished? then s.(c := RemoveSettled(s.c, s.rem.request, s.rem.result), rem := NoRemoval) else s
  }

  function OnFlush(s: Client, epoch: nat, attempts: nat): Client {
    var step := FlushNext(s.c, epoch, attempts);
    if step.Decided? then s.(verdict := Flushed(step.mayLeave)) else SendPut(s)
  }

  // ---- Deliveries ----

  function Deny(h: History): History {
    h.(denied := true, fates := Settle(h.fates, |h.fates|, Dropped))
  }

  function Receive(h: History, content: Content, version: Version): History {
    h.(lastReply := content, receipts := h.receipts + {version})
  }

  function GetReplyTaken(s: Client, epoch: nat, reply: ReadReply): Client {
    s.(c := RestoreReply(s.c, epoch, reply), get := NoGet,
       h := if !IsCurrent(s.c, epoch) then s.h
            else match reply
              case ReadRow(stored) => Receive(s.h, stored.content, stored.version)
              case ReadNothing => Receive(s.h, EMPTY, Absent)
              case ReadDenied => Deny(s.h)
              case ReadFailed => s.h)
  }

  function PutReplyTaken(s: Client, q: PutRequest, reply: WriteReply): Client {
    s.(c := SaveReply(s.c, q, reply), put := NoPut,
       h := if !IsCurrent(s.c, q.epoch) then s.h
            else if Confirms(q, reply) then
              var h := Receive(s.h, reply.stored.content, reply.stored.version);
              h.(fates := Settle(s.h.fates, q.submittedEdit, Acknowledged))
            else if reply.WriteDenied? then Deny(s.h)
            else s.h)
  }

  function RebaseReplyTaken(s: Client, q: RebaseRequest, reply: WriteReply): Client {
    s.(c := RebaseReply(s.c, q, reply), reb := NoRebase,
       h := if !IsCurrent(s.c, q.epoch) then s.h
            else match reply
              case Written(stored) => Receive(s.h, stored.content, stored.version)
              case WriteDenied => Deny(s.h)
              case _ => s.h)
  }

  function DeleteReplyTaken(s: Client, q: Removal, v: Version, reply: DeleteReply): Client {
    var result := RemoveResult(s.c, q, reply);
    var h := s.h.(allCleared := s.h.allCleared && result == Cleared);
    s.(c := RemoveReply(s.c, q, v, reply), rem := Finished(q, result), verdict := Resolved(result),
       h := if !IsCurrent(s.c, q.epoch) then h
            else match reply
              case Deleted =>
                Receive(h, EMPTY, Absent).(
                  fates := if s.c.view.version == v then Settle(h.fates, q.clearedEdit, Removed) else h.fates)
              case DeleteDenied => Deny(h)
              case _ => h)
  }

  predicate GetArrives(s: Client, d: Delivery) { s.get.GetServed? || (s.get.GetSent? && !d.Faithful?) }

  function GetArrival(s: Client, d: Delivery): ReadReply
    requires GetArrives(s, d)
  {
    match d case Lost => ReadFailed case Refused => ReadDenied case Faithful => s.get.reply
  }

  function OnGetReply(s: Client, d: Delivery): Client {
    if GetArrives(s, d) then GetReplyTaken(s, s.get.epoch, GetArrival(s, d)) else s
  }

  predicate PutArrives(s: Client, d: Delivery) { s.put.PutServed? || (s.put.PutSent? && !d.Faithful?) }

  function PutArrival(s: Client, d: Delivery): WriteReply
    requires PutArrives(s, d)
  {
    match d case Lost => WriteFailed case Refused => WriteDenied case Faithful => s.put.reply
  }

  function OnPutReply(s: Client, d: Delivery): Client {
    if PutArrives(s, d) then PutReplyTaken(s, s.put.request, PutArrival(s, d)) else s
  }

  predicate RebaseArrives(s: Client, d: Delivery) { s.reb.RebaseServed? || (s.reb.RebaseSent? && !d.Faithful?) }

  function RebaseArrival(s: Client, d: Delivery): WriteReply
    requires RebaseArrives(s, d)
  {
    match d case Lost => WriteFailed case Refused => WriteDenied case Faithful => s.reb.reply
  }

  function OnRebaseReply(s: Client, d: Delivery): Client {
    if RebaseArrives(s, d) then RebaseReplyTaken(s, s.reb.request, RebaseArrival(s, d)) else s
  }

  predicate DeleteArrives(s: Client, d: Delivery) { s.rem.DeleteServed? || (s.rem.DeleteSent? && !d.Faithful?) }

  function DeleteArrival(s: Client, d: Delivery): DeleteReply
    requires DeleteArrives(s, d)
  {
    match d case Lost => DeleteFailed case Refused => DeleteDenied case Faithful => s.rem.reply
  }

  function OnDeleteReply(s: Client, d: Delivery): Client {
    if DeleteArrives(s, d) then DeleteReplyTaken(s, s.rem.request, s.rem.version, DeleteArrival(s, d)) else s
  }

  /** What the page or the timer does. */
  function OnAction(s: Client, e: Event): Client {
    match e
    case Mount => OnMount(s)
    case Unmount => OnUnmount(s)
    case LoseAuthority => s.(c := s.c.(authorized := false))
    case RetryRestore => if s.c.known then s else SendGet(s)
    case TimerFires => if s.c.timer then SendPut(s) else s
    case RetrySave => SendPut(s)
    case Edit(content, base) => OnEdit(s, content, base)
    case Review(revision) => OnReview(s, revision)
    case _ => s
  }

  /** A removal or a delivery. */
  function OnReply(s: Client, e: Event): Client {
    match e
    case Discard(requested) => OnDiscard(s, requested)
    case CleanupContinues => OnContinue(s)
    case CleanupSettles => OnSettle(s)
    case DeliverGet(d) => OnGetReply(s, d)
    case DeliverPut(d) => OnPutReply(s, d)
    case DeliverRebase(d) => OnRebaseReply(s, d)
    case DeliverDelete(d) => OnDeleteReply(s, d)
    case _ => s
  }

  // ---- Server steps ----

  /** What a request means depends on the conversation at the time the server receives it. */
  function Arrives(op: Op, base: nat, upToDate: bool): Op {
    match op
    case OpPut(expected, content, _) => OpPut(expected, content, base)
    case OpRebase(expected, reviewed, _) => OpRebase(expected, reviewed, upToDate)
    case OpDelete(_) => op
  }

  function ServeGetStep(w: World): World {
    if w.client.get.GetSent? then w.(client := w.client.(get := GetServed(w.client.get.epoch, ReadAnswer(w.server))))
        else w
  }

  function ServePutStep(me: nat, w: World, base: nat): World {
    if !w.client.put.PutSent? then w else
    var op := PutOp(w.client.put.request, base);
    World(Serve(w.server, me, op), w.client.(put := PutServed(w.client.put.request, WriteAnswer(w.server, me, op))))
  }

  function ServeRebaseStep(me: nat, w: World, upToDate: bool): World {
    if !w.client.reb.RebaseSent? then w else
    var op := OpRebase(w.client.reb.request.version, w.client.reb.request.reviewed, upToDate);
    World(Serve(w.server, me, op), w.client.(reb := RebaseServed(w.client.reb.request, WriteAnswer(w.server, me, op))))
  }

  function ServeDeleteStep(me: nat, w: World): World {
    if !w.client.rem.DeleteSent? then w else
    var op := OpDelete(w.client.rem.version);
    World(Serve(w.server, me, op),
          w.client.(rem := DeleteServed(w.client.rem.request, w.client.rem.version, DeleteAnswer(w.server, op))))
  }

  function ServeStaleStep(me: nat, w: World, index: nat, base: nat, upToDate: bool): World {
    if index >= |w.client.stale| then w
    else World(Serve(w.server, me, Arrives(w.client.stale[index], base, upToDate)),
               w.client.(stale := w.client.stale[..index] + w.client.stale[index + 1..]))
  }

  function OnServer(me: nat, w: World, e: Event): World {
    match e
    case ServeGet => ServeGetStep(w)
    case ServePut(base) => ServePutStep(me, w, base)
    case ServeRebase(upToDate) => ServeRebaseStep(me, w, upToDate)
    case ServeDelete => ServeDeleteStep(me, w)
    case ServeStale(index, base, upToDate) => ServeStaleStep(me, w, index, base, upToDate)
    case Foreign(who, op) => if who != me then w.(server := Serve(w.server, who, op)) else w
    case _ => w
  }

  function Quiet(s: Client): Client {
    s.(verdict := NoVerdict)
  }

  predicate IsAction(e: Event) {
    e.Mount? || e.Unmount? || e.LoseAuthority? || e.RetryRestore? || e.TimerFires? || e.RetrySave? || e.Edit? ||
        e.Review?
  }

  predicate IsReply(e: Event) {
    e.Discard? || e.CleanupContinues? || e.CleanupSettles? || e.DeliverGet? || e.DeliverPut? || e.DeliverRebase? ||
        e.DeliverDelete?
  }

  /** Steps that are not possible in `w` leave it as it is, but for the verdict. */
  function Step(me: nat, w: World, e: Event): World {
    if e.Flush? then World(w.server, OnFlush(Quiet(w.client), e.epoch, e.attempts))
    else if IsAction(e) then World(w.server, OnAction(Quiet(w.client), e))
    else if IsReply(e) then World(w.server, OnReply(Quiet(w.client), e))
    else OnServer(me, World(w.server, Quiet(w.client)), e)
  }

  function Run(me: nat, w: World, events: seq<Event>): World {
    if events == [] then w else Step(me, Run(me, w, events[..|events| - 1]), events[|events| - 1])
  }
}
