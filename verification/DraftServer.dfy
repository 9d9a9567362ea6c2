/** The draft row behind the API: compare-and-swap on (generation, revision). */
module DraftServer {
  import opened DraftController

  /** `author` is the controller whose PUT wrote this content; a rebase keeps it. */
  datatype Row = NoRow | Row(stored: Stored, author: nat)

  datatype Commit = Commit(who: nat, put: bool, before: Version, after: Version)

  /** `retired` holds every version that was current once and no longer is. */
  datatype Server = Server(row: Row, nextGeneration: nat, retired: set<Version>, chain: seq<Commit>)

  /** A request as the server sees it. A PUT that creates takes its base from `base`; a rebase is
      accepted only when the reviewed revision is the newest (`upToDate`). */
  datatype Op =
    | OpPut(expected: Version, content: Content, base: nat)
    | OpRebase(expected: Version, reviewed: nat, upToDate: bool)
    | OpDelete(expected: Version)

  function Current(s: Server): Version {
    if s.row.Row? then s.row.stored.version else Absent
  }

  /** Rebase and delete always name a version. */
  predicate Accepts(s: Server, op: Op) {
    Current(s) == op.expected && (op.OpPut? || s.row.Row?) && (op.OpRebase? ==> op.upToDate)
  }

  function Successor(s: Server): Version {
    if s.row.Row? && s.row.stored.version.Version? then
      Version(s.row.stored.version.generation, s.row.stored.version.revision + 1)
    else Version(s.nextGeneration, 1)
  }

  /** The row an accepted request leaves. */
  function RowAfter(s: Server, who: nat, op: Op): Row {
    match op
    case OpDelete(_) => NoRow
    case OpPut(_, content, base) =>
      Row(Stored(Successor(s), content, if s.row.Row? then s.row.stored.base else base), who)
    case OpRebase(_, reviewed, _) =>
      Row(Stored(Successor(s), if s.row.Row? then s.row.stored.content else EMPTY, reviewed),
          if s.row.Row? then s.row.author else who)
  }

  function Serve(s: Server, who: nat, op: Op): Server {
    if !Accepts(s, op) then s else
    var row := RowAfter(s, who, op);
    Server(row,
           if s.row.Row? then s.nextGeneration else s.nextGeneration + 1,
           if s.row.Row? then s.retired + {op.expected} else s.retired,
           s.chain + [Commit(who, op.OpPut?, op.expected, if row.Row? then row.stored.version else Absent)])
  }

  function WriteAnswer(s: Server, who: nat, op: Op): WriteReply {
    if Accepts(s, op) && RowAfter(s, who, op).Row? then Written(RowAfter(s, who, op).stored) else WriteClash
  }

  function DeleteAnswer(s: Server, op: Op): DeleteReply {
    if Accepts(s, op) then Deleted else DeleteClash
  }

  function ReadAnswer(s: Server): ReadReply {
    if s.row.Row? then ReadRow(s.row.stored) else ReadNothing
  }

  const EMPTY_SERVER := Server(NoRow, 0, {}, [])

  ghost predicate Committed(s: Server, v: Version) {
    v in s.retired || (s.row.Row? && Current(s) == v)
  }

  function LeftBy(chain: seq<Commit>): Version {
    if chain == [] then Absent else chain[|chain| - 1].after
  }

  /** Each commit starts from what the one before it left, and the row is what the last one left. */
  ghost predicate SingleChain(s: Server) {
    && (forall k | 0 <= k < |s.chain| :: s.chain[k].before == LeftBy(s.chain[..k]))
    && Current(s) == LeftBy(s.chain)
  }

  /** No version is ever committed twice. */
  ghost predicate CommittedOnce(s: Server) {
    && (forall k | 0 <= k < |s.chain| && s.chain[k].after != Absent :: Committed(s, s.chain[k].after))
    && (forall i, j | 0 <= i < j < |s.chain| && s.chain[j].after != Absent :: s.chain[i].after != s.chain[j].after)
  }

  predicate Before(v: Version, now: Version) {
    v.Version? && now.Version? && (v.generation != now.generation || v.revision < now.revision)
  }

  /** Versions never come back: the current one differs from, and in its generation exceeds, every
      retired one, and so does the next generation. */
  ghost predicate Consistent(s: Server) {
    && SingleChain(s) && CommittedOnce(s)
    && (forall v | v in s.retired :: v.Version? && v.generation < s.nextGeneration)
    && (s.row.Row? ==>
      && Current(s).Version? && Current(s).generation < s.nextGeneration
      && forall v | v in s.retired :: Before(v, Current(s)))
  }

  lemma ServeChain(s: Server, who: nat, op: Op)
    requires SingleChain(s)
    ensures SingleChain(Serve(s, who, op))
  {
    var t := Serve(s, who, op);
    if Accepts(s, op) {
      forall k | 0 <= k < |t.chain| ensures t.chain[k].before == LeftBy(t.chain[..k]) {
        assert k < |s.chain| ==> t.chain[..k] == s.chain[..k];
        assert k == |s.chain| ==> t.chain[..k] == s.chain;
      }
    }
  }

  lemma ServeOnce(s: Server, who: nat, op: Op)
    requires Consistent(s)
    ensures CommittedOnce(Serve(s, who, op))
  {
  }

  lemma ServeConsistent(s: Server, who: nat, op: Op)
    requires Consistent(s)
    ensures Consistent(Serve(s, who, op))
  {
    ServeChain(s, who, op);
    ServeOnce(s, who, op);
  }

  /** A version is committed for good, and a commit never brings one back. */
  lemma ServeOnlyAdds(s: Server, who: nat, op: Op)
    requires Consistent(s)
    ensures forall v :: v in s.retired ==> v in Serve(s, who, op).retired
    ensures forall v :: Committed(s, v) ==> Committed(Serve(s, who, op), v)
    ensures Serve(s, who, op).row.Row? && Current(Serve(s, who, op)) != Current(s) ==>
        !Committed(s, Current(Serve(s, who, op)))
    ensures Accepts(s, op) && Serve(s, who, op).row.Row? ==>
        Serve(s, who, op).row.author == if op.OpPut? then who else s.row.author
  {
  }
}
