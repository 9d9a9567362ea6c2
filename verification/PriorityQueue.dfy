/** Ordering of the priority queue: three views, each a lexicographic comparison with drifting windows. */
module PriorityQueue {
  import opened Numbers

  datatype Contract = Alpha | Bravo | Charlie | Delta | UnknownContract

  datatype View = DefaultFocus | CriticalityMatrix | SlaCommitment | UnknownView

  /** A UTF-16 code unit. */
  type Unit = u: int | 0 <= u < 0x1_0000

  datatype Ticket = Ticket(id: seq<Unit>, contract: Contract, criticality: Number, remaining: Number, score: Number)

  predicate Tier(criticality: Number) {
    Whole(criticality, 1, 4)
  }

  function ContractWindow(contract: Contract): int {
    match contract
    case Alpha => 1
    case Bravo => 4
    case Charlie => 24
    case _ => 48
  }

  function CriticalityWindow(criticality: Number): int
    requires Tier(criticality)
  {
    var tier := criticality.value.Floor;
    if tier == 4 then 1 else if tier == 3 then 4 else if tier == 2 then 24 else 48
  }

  function AbsoluteWindow(contract: Contract, criticality: Number): int
    requires Tier(criticality)
  {
    var a, b := ContractWindow(contract), CriticalityWindow(criticality);
    if a <= b then a else b
  }

  /** The smallest threshold below the window that the remaining time has come down to; else the window. */
  function EffectiveWindow(window: int, remaining: real): int {
    if 1 < window && remaining <= 1.0 then 1
    else if 4 < window && remaining <= 4.0 then 4
    else if 24 < window && remaining <= 24.0 then 24
    else window
  }

  predicate Valid(t: Ticket) {
    t.id != [] && t.contract != UnknownContract && Tier(t.criticality) && t.remaining.Finite? && Whole(t.score, 1, 45)
  }

  function Remaining(t: Ticket): real
    requires Valid(t)
  {
    t.remaining.value
  }

  /** A drifted ticket counts with its drifted window, any other with `own`. */
  function Drifted(t: Ticket, own: int): real
    requires Valid(t)
  {
    var window := AbsoluteWindow(t.contract, t.criticality);
    var effective := EffectiveWindow(window, Remaining(t));
    (if effective < window then effective else own) as real
  }

  function EffectiveCriticality(t: Ticket): real
    requires Valid(t)
  {
    Drifted(t, CriticalityWindow(t.criticality))
  }

  function EffectiveContract(t: Ticket): real
    requires Valid(t)
  {
    Drifted(t, ContractWindow(t.contract))
  }

  function ContractOrder(contract: Contract): real {
    match contract
    case Alpha => 0.0
    case Bravo => 1.0
    case Charlie => 2.0
    case _ => 3.0
  }

  // ---- The comparison as the code makes it ----

  function CompareRemaining(a: Ticket, b: Ticket): real
    requires Valid(a) && Valid(b)
  {
    Remaining(a) - Remaining(b)
  }

  function CompareScore(a: Ticket, b: Ticket): real
    requires Valid(a) && Valid(b)
  {
    b.score.value - a.score.value
  }

  function CompareCriticality(a: Ticket, b: Ticket): real
    requires Valid(a) && Valid(b)
  {
    b.criticality.value - a.criticality.value
  }

  function CompareContract(a: Ticket, b: Ticket): real {
    ContractOrder(a.contract) - ContractOrder(b.contract)
  }

  function CompareEffectiveCriticality(a: Ticket, b: Ticket): real
    requires Valid(a) && Valid(b)
  {
    EffectiveCriticality(a) - EffectiveCriticality(b)
  }

  function CompareEffectiveContract(a: Ticket, b: Ticket): real
    requires Valid(a) && Valid(b)
  {
    EffectiveContract(a) - EffectiveContract(b)
  }

  function Comparisons(view: View, a: Ticket, b: Ticket): seq<real>
    requires Valid(a) && Valid(b)
  {
    match view
    case DefaultFocus =>
      [CompareRemaining(a, b), CompareScore(a, b), CompareCriticality(a, b), CompareContract(a, b)]
    case CriticalityMatrix =>
      [CompareEffectiveCriticality(a, b), CompareRemaining(a, b), CompareCriticality(a, b), CompareContract(a, b),
          CompareScore(a, b)]
    case _ =>
      [CompareEffectiveContract(a, b), CompareEffectiveCriticality(a, b), CompareRemaining(a, b), CompareContract(a, b),
       CompareCriticality(a, b), CompareScore(a, b)]
  }

  /** Lexicographic, by code unit. */
  predicate IdBefore(a: seq<Unit>, b: seq<Unit>) {
    b != [] && (a == [] || a[0] < b[0] || (a[0] == b[0] && IdBefore(a[1..], b[1..])))
  }

  function CompareId(a: seq<Unit>, b: seq<Unit>): real {
    if IdBefore(a, b) then -1.0 else if IdBefore(b, a) then 1.0 else 0.0
  }

  datatype Comparison = RangeError | Ordered(difference: real)

  /** What the comparator returns: the first comparison that is not zero, else that of the ids. */
  function FirstNonZero(ds: seq<real>, otherwise: real): real {
    if ds == [] then otherwise else if ds[0] != 0.0 then ds[0] else FirstNonZero(ds[1..], otherwise)
  }

  predicate Accepts(view: View, a: Ticket, b: Ticket) {
    view != UnknownView && Valid(a) && Valid(b)
  }

  function Difference(view: View, a: Ticket, b: Ticket): real
    requires Accepts(view, a, b)
  {
    FirstNonZero(Comparisons(view, a, b), CompareId(a.id, b.id))
  }

  lemma {:induction false} FirstNonZeroAt(ds: seq<real>, otherwise: real, i: nat)
    requires i <= |ds| && forall k | 0 <= k < i :: ds[k] == 0.0
    ensures FirstNonZero(ds, otherwise) == FirstNonZero(ds[i..], otherwise)
  {
    if i > 0 {
      FirstNonZeroAt(ds, otherwise, i - 1);
      assert ds[i - 1..][1..] == ds[i..];
    } else {
      assert ds[0..] == ds;
    }
  }

  method ComparePriorityTickets(view: View, a: Ticket, b: Ticket) returns (r: Comparison)
    ensures r.Ordered? <==> Accepts(view, a, b)
    ensures r.Ordered? ==> r.difference == Difference(view, a, b)
  {
    if view != DefaultFocus && view != CriticalityMatrix && view != SlaCommitment { return RangeError; }
    if !Valid(a) || !Valid(b) { return RangeError; }
    var ds := Comparisons(view, a, b);
    var i := 0;
    while i < |ds|
      invariant 0 <= i <= |ds| && forall k | 0 <= k < i :: ds[k] == 0.0
    {
      FirstNonZeroAt(ds, CompareId(a.id, b.id), i);
      if ds[i] != 0.0 { return Ordered(ds[i]); }
      i := i + 1;
    }
    FirstNonZeroAt(ds, CompareId(a.id, b.id), i);
    return Ordered(CompareId(a.id, b.id));
  }

  // ---- A rank per ticket ----

  /** Where a ticket stands by itself: smaller goes first, component by component. */
  function Rank(view: View, t: Ticket): (r: seq<real>)
    requires Valid(t)
    ensures |r| == match view case DefaultFocus => 4 case CriticalityMatrix => 5 case _ => 6
  {
    var criticality, contract, score := -t.criticality.value, ContractOrder(t.contract), -t.score.value;
    match view
    case DefaultFocus => [Remaining(t), score, criticality, contract]
    case CriticalityMatrix => [EffectiveCriticality(t), Remaining(t), criticality, contract, score]
    case _ => [EffectiveContract(t), EffectiveCriticality(t), Remaining(t), contract, criticality, score]
  }

  predicate RankBefore(x: seq<real>, y: seq<real>)
    requires |x| == |y|
  {
    x != [] && (x[0] < y[0] || (x[0] == y[0] && RankBefore(x[1..], y[1..])))
  }

  /** The queue's order. */
  predicate Before(view: View, a: Ticket, b: Ticket)
    requires Valid(a) && Valid(b)
  {
    RankBefore(Rank(view, a), Rank(view, b)) || (Rank(view, a) == Rank(view, b) && IdBefore(a.id, b.id))
  }

  lemma {:induction false} FirstNonZeroRanks(x: seq<real>, y: seq<real>, ds: seq<real>, otherwise: real)
    requires |x| == |y| == |ds| && forall i | 0 <= i < |x| :: ds[i] == x[i] - y[i]
    ensures FirstNonZero(ds, otherwise) < 0.0 <==> RankBefore(x, y) || (x == y && otherwise < 0.0)
    ensures FirstNonZero(ds, otherwise) == 0.0 <==> x == y && otherwise == 0.0
  {
    if x != [] {
      FirstNonZeroRanks(x[1..], y[1..], ds[1..], otherwise);
      assert x == [x[0]] + x[1..] && y == [y[0]] + y[1..];
      assert ds[0] == x[0] - y[0];
    }
  }

  lemma {:induction false} IdsCompare(a: seq<Unit>, b: seq<Unit>)
    ensures IdBefore(a, b) ==> !IdBefore(b, a) && a != b
    ensures a == b || IdBefore(a, b) || IdBefore(b, a)
  {
    if a != [] && b != [] {
      IdsCompare(a[1..], b[1..]);
      assert a == [a[0]] + a[1..] && b == [b[0]] + b[1..];
    }
  }

  lemma {:induction false} IdsChain(a: seq<Unit>, b: seq<Unit>, c: seq<Unit>)
    requires IdBefore(a, b) && IdBefore(b, c)
    ensures IdBefore(a, c)
  {
    if a != [] && a[0] == b[0] == c[0] { IdsChain(a[1..], b[1..], c[1..]); }
  }

  lemma {:induction false} RanksCompare(x: seq<real>, y: seq<real>)
    requires |x| == |y|
    ensures RankBefore(x, y) ==> !RankBefore(y, x) && x != y
    ensures x == y || RankBefore(x, y) || RankBefore(y, x)
  {
    if x != [] {
      RanksCompare(x[1..], y[1..]);
      assert x == [x[0]] + x[1..] && y == [y[0]] + y[1..];
    }
  }

  lemma {:induction false} RanksChain(x: seq<real>, y: seq<real>, z: seq<real>)
    requires |x| == |y| == |z| && RankBefore(x, y) && RankBefore(y, z)
    ensures RankBefore(x, z)
  {
    if x[0] == y[0] == z[0] { RanksChain(x[1..], y[1..], z[1..]); }
  }

  /** The comparator's sign is the queue's order; it is zero only for the same id and the same rank. */
  lemma DifferenceIsOrder(view: View, a: Ticket, b: Ticket)
    requires Accepts(view, a, b)
    ensures Difference(view, a, b) < 0.0 <==> Before(view, a, b)
    ensures Difference(view, a, b) > 0.0 <==> Before(view, b, a)
    ensures Difference(view, a, b) == 0.0 <==> a.id == b.id && Rank(view, a) == Rank(view, b)
  {
    FirstNonZeroRanks(Rank(view, a), Rank(view, b), Comparisons(view, a, b), CompareId(a.id, b.id));
    IdsCompare(a.id, b.id);
    RanksCompare(Rank(view, a), Rank(view, b));
  }

  /** In each view the order is strict and total on valid tickets with distinct ids. */
  lemma StrictTotalOrder(view: View, a: Ticket, b: Ticket, c: Ticket)
    requires Valid(a) && Valid(b) && Valid(c)
    ensures !Before(view, a, a)
    ensures Before(view, a, b) ==> !Before(view, b, a)
    ensures a.id != b.id ==> Before(view, a, b) || Before(view, b, a)
    ensures Before(view, a, b) && Before(view, b, c) ==> Before(view, a, c)
  {
    var x, y, z := Rank(view, a), Rank(view, b), Rank(view, c);
    RanksCompare(x, x);
    RanksCompare(x, y);
    IdsCompare(a.id, a.id);
    IdsCompare(a.id, b.id);
    if Before(view, a, b) && Before(view, b, c) {
      if RankBefore(x, y) && RankBefore(y, z) { RanksChain(x, y, z); }
      if IdBefore(a.id, b.id) && IdBefore(b.id, c.id) { IdsChain(a.id, b.id, c.id); }
    }
  }

  // ---- Less time never moves a ticket back ----

  lemma {:induction false} SmallerRank(x: seq<real>, y: seq<real>, z: seq<real>)
    requires |x| == |y| == |z| && forall i | 0 <= i < |x| :: x[i] <= y[i]
    ensures RankBefore(y, z) ==> RankBefore(x, z)
    ensures y == z ==> x == z || RankBefore(x, z)
  {
    if x != [] {
      SmallerRank(x[1..], y[1..], z[1..]);
      assert x == [x[0]] + x[1..] && y == [y[0]] + y[1..] && z == [z[0]] + z[1..];
    }
  }

  lemma DriftIsMonotone(t: Ticket, sooner: real, own: int)
    requires Valid(t) && sooner <= Remaining(t) && own >= AbsoluteWindow(t.contract, t.criticality)
    ensures Valid(t.(remaining := Finite(sooner)))
    ensures Drifted(t.(remaining := Finite(sooner)), own) <= Drifted(t, own)
  {
  }

  lemma LessTimeSmallerRank(view: View, t: Ticket, sooner: real)
    requires Valid(t) && sooner <= Remaining(t)
    ensures var u := t.(remaining := Finite(sooner));
      Valid(u) && forall i | 0 <= i < |Rank(view, t)| :: Rank(view, u)[i] <= Rank(view, t)[i]
  {
    DriftIsMonotone(t, sooner, CriticalityWindow(t.criticality));
    DriftIsMonotone(t, sooner, ContractWindow(t.contract));
  }

  /** Lowering a ticket's remaining time never moves it behind a ticket it preceded, drift included. */
  lemma LessTimeNeverMovesBack(view: View, a: Ticket, sooner: real, b: Ticket)
    requires Valid(a) && Valid(b) && sooner <= Remaining(a) && Before(view, a, b)
    ensures Valid(a.(remaining := Finite(sooner))) && Before(view, a.(remaining := Finite(sooner)), b)
  {
    LessTimeSmallerRank(view, a, sooner);
    SmallerRank(Rank(view, a.(remaining := Finite(sooner))), Rank(view, a), Rank(view, b));
  }

  // ---- One snapshot, one order ----

  predicate Sorted(view: View, ts: seq<Ticket>) {
    (forall i | 0 <= i < |ts| :: Valid(ts[i])) && forall i, j | 0 <= i < j < |ts| :: Before(view, ts[i], ts[j])
  }

  lemma HeadIsFirst(view: View, s: seq<Ticket>, t: seq<Ticket>)
    requires Sorted(view, s) && Sorted(view, t) && multiset(s) == multiset(t) && s != [] && t != []
    ensures s[0] == t[0]
  {
    assert s[0] in multiset(t) && t[0] in multiset(s);
    var i :| 0 <= i < |t| && t[i] == s[0];
    var j :| 0 <= j < |s| && s[j] == t[0];
    if i > 0 && j > 0 { StrictTotalOrder(view, s[0], t[0], s[0]); }
  }

  lemma TailSorted(view: View, s: seq<Ticket>)
    requires Sorted(view, s) && s != []
    ensures Sorted(view, s[1..]) && multiset(s[1..]) == multiset(s) - multiset{s[0]}
  {
    assert s == [s[0]] + s[1..];
    forall i, j | 0 <= i < j < |s[1..]| ensures Before(view, s[1..][i], s[1..][j]) {
      assert Before(view, s[i + 1], s[j + 1]);
    }
  }

  /** A snapshot of the queue has only one order: however it was sorted, the result is the same. */
  lemma {:induction false} SortedOnce(view: View, s: seq<Ticket>, t: seq<Ticket>)
    requires Sorted(view, s) && Sorted(view, t) && multiset(s) == multiset(t)
    ensures s == t
  {
    assert |multiset(s)| == |s| && |multiset(t)| == |t|;
    if s != [] {
      HeadIsFirst(view, s, t);
      TailSorted(view, s);
      TailSorted(view, t);
      SortedOnce(view, s[1..], t[1..]);
      assert s == [s[0]] + s[1..] && t == [t[0]] + t[1..];
    }
  }
}
