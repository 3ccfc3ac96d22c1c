/**
 Corporate-action normalization: the factors in force are filtered, sorted and multiplied in turn.
 The multiplication is any function at all, so nothing rests on it being associative or commutative.
 */
module Normalization {
  import opened Basics
  import Ordering

  datatype Mode = Raw | Adjusted | SplitAdjusted | TotalReturn | ScaledRaw

  datatype Visibility = BySource | ByObservation | ByIngestion

  /** `action` is a UUID as the number its bytes spell; times are instants. */
  datatype Factor = Factor(
    action: nat, mode: Mode, effectiveAt: int, sourceAt: int, observedAt: int, ingestedAt: int,
    price: real, quantity: real)

  datatype Query = Query(visibility: Visibility, cutoff: int)

  /** What the decimal context does with one product; None is an arithmetic error. */
  type Product = (real, real) -> Option<real>

  function VisibleFrom(f: Factor, v: Visibility): int {
    match v case BySource => f.sourceAt case ByObservation => f.observedAt case ByIngestion => f.ingestedAt
  }

  predicate InForce(f: Factor, event: int, mode: Mode, q: Query) {
    f.mode == mode && event < f.effectiveAt && VisibleFrom(f, q.visibility) <= q.cutoff
  }

  predicate Earlier(x: Factor, y: Factor) {
    x.effectiveAt < y.effectiveAt || (x.effectiveAt == y.effectiveAt && x.action < y.action)
  }

  function Selected(fs: seq<Factor>, event: int, mode: Mode, q: Query): (s: seq<Factor>)
    ensures forall f :: f in s <==> f in fs && InForce(f, event, mode, q)
  {
    if fs == [] then []
    else (if InForce(fs[0], event, mode, q) then [fs[0]] else []) + Selected(fs[1..], event, mode, q)
  }

  function Chain(fs: seq<Factor>, event: int, mode: Mode, q: Query): seq<Factor> {
    Ordering.Sort((x: Factor, y: Factor) => Earlier(x, y), Selected(fs, event, mode, q))
  }

  /** One factor applied to a price and quantity; an error sticks. */
  function Adjust(times: Product, value: Option<(real, real)>, f: Factor): Option<(real, real)> {
    match value
    case None => None
    case Some((p, n)) =>
      match times(p, f.price)
      case None => None
      case Some(price) =>
        match times(n, f.quantity) case None => None case Some(quantity) => Some((price, quantity))
  }

  function Folded(times: Product, value: Option<(real, real)>, fs: seq<Factor>): Option<(real, real)> {
    if fs == [] then value else Adjust(times, Folded(times, value, fs[..|fs| - 1]), fs[|fs| - 1])
  }

  ghost predicate DistinctActions(fs: seq<Factor>) {
    forall i, j | 0 <= i < j < |fs| :: fs[i].action != fs[j].action
  }

  predicate Positive(v: (real, real)) {
    v.0 > 0.0 && v.1 > 0.0
  }

  /** The meaning of a normalization: refusal, the raw value, or the folded product. */
  ghost function Normalized(
    times: Product, price: real, quantity: real, event: int, mode: Mode, q: Query, fs: seq<Factor>): Option<(real, real)>
  {
    if !Positive((price, quantity)) || !DistinctActions(fs) then None
    else if mode == Raw then Some((price, quantity))
    else
      var r := Folded(times, Some((price, quantity)), Chain(fs, event, mode, q));
      if r.Some? && Positive(r.value) then r else None
  }

  method NormalizePriceQuantity(
    times: Product, price: real, quantity: real, event: int, mode: Mode, q: Query, fs: seq<Factor>)
    returns (r: Option<(real, real)>)
    ensures r == Normalized(times, price, quantity, event, mode, q, fs)
  {
    hide Chain, Adjust;
    if !Positive((price, quantity)) {
      return None;
    }
    var distinct := Distinct(fs);
    if !distinct {
      return None;
    }
    if mode == Raw {
      return Some((price, quantity));
    }
    var visible := Chain(fs, event, mode, q);
    r := Some((price, quantity));
    for i := 0 to |visible|
      invariant r == Folded(times, Some((price, quantity)), visible[..i])
    {
      assert visible[..i + 1][..i] == visible[..i];
      r := Adjust(times, r, visible[i]);
    }
    assert visible[..|visible|] == visible;
    if r.Some? && !Positive(r.value) {
      r := None;
    }
  }

  /** Collect the action ids; they are distinct exactly when none is met twice. */
  method Distinct(fs: seq<Factor>) returns (distinct: bool)
    ensures distinct <==> DistinctActions(fs)
  {
    var ids := {};
    for i := 0 to |fs|
      invariant DistinctActions(fs[..i]) && forall a :: a in ids <==> exists j | 0 <= j < i :: fs[j].action == a
    {
      if fs[i].action in ids {
        return false;
      }
      ids := ids + {fs[i].action};
    }
    assert fs[..|fs|] == fs;
    return true;
  }

  /******* Order and irrelevant factors do not matter *******/

  lemma {:induction false} SelectedDistinct(fs: seq<Factor>, event: int, mode: Mode, q: Query)
    requires DistinctActions(fs)
    ensures Ordering.Distinct(Selected(fs, event, mode, q))
  {
    if fs != [] {
      SelectedDistinct(fs[1..], event, mode, q);
      forall f | f in fs[1..]
        ensures f != fs[0]
      {
        var i :| 0 <= i < |fs[1..]| && fs[1..][i] == f;
        assert fs[1..][i] == fs[i + 1];
      }
    }
  }

  lemma EarlierDistinguishes(fs: seq<Factor>, s: seq<Factor>)
    requires DistinctActions(fs) && forall f | f in s :: f in fs
    ensures Ordering.StrictWeak((x: Factor, y: Factor) => Earlier(x, y))
    ensures Ordering.Distinguishes((x: Factor, y: Factor) => Earlier(x, y), multiset(s))
  {
    forall x, y | x in multiset(s) && y in multiset(s) && x != y
      ensures Earlier(x, y) || Earlier(y, x)
    {
      assert x in s && y in s;
      var i :| 0 <= i < |fs| && fs[i] == x;
      var j :| 0 <= j < |fs| && fs[j] == y;
    }
  }

  /**
   For any rounded product, two factor tuples with distinct action ids and the same factors in force
   normalize alike: neither their order nor factors of another mode, not yet visible or not
   applicable to the event matter.
   */
  lemma NormalizationDependsOnFactorsInForce(
    times: Product, price: real, quantity: real, event: int, mode: Mode, q: Query, a: seq<Factor>, b: seq<Factor>)
    requires DistinctActions(a) && DistinctActions(b)
    requires forall f :: InForce(f, event, mode, q) ==> (f in a <==> f in b)
    ensures Normalized(times, price, quantity, event, mode, q, a) == Normalized(times, price, quantity, event, mode, q, b)
  {
    var x, y := Selected(a, event, mode, q), Selected(b, event, mode, q);
    SelectedDistinct(a, event, mode, q);
    SelectedDistinct(b, event, mode, q);
    Ordering.SameElements(x, y);
    EarlierDistinguishes(a, x);
    Ordering.SortCanonical((x: Factor, y: Factor) => Earlier(x, y), x, y);
  }

  lemma SameDistinct(a: seq<Factor>, b: seq<Factor>)
    requires multiset(a) == multiset(b) && DistinctActions(a)
    ensures DistinctActions(b)
  {
    Ordering.PermutedDistinct(a, b);
    forall i, j | 0 <= i < j < |b|
      ensures b[i].action != b[j].action
    {
      assert b[i] in a && b[j] in a;
      var k :| 0 <= k < |a| && a[k] == b[i];
      var l :| 0 <= l < |a| && a[l] == b[j];
    }
  }

  /** Permuting the tuple changes nothing, not even whether it is refused. */
  lemma PermutationIrrelevant(
    times: Product, price: real, quantity: real, event: int, mode: Mode, q: Query, a: seq<Factor>, b: seq<Factor>)
    requires multiset(a) == multiset(b)
    ensures Normalized(times, price, quantity, event, mode, q, a) == Normalized(times, price, quantity, event, mode, q, b)
  {
    if DistinctActions(a) {
      assert DistinctActions(b) by { SameDistinct(a, b); }
      forall f: Factor
        ensures f in a <==> f in b
      {
        assert f in multiset(a) <==> f in multiset(b);
      }
      NormalizationDependsOnFactorsInForce(times, price, quantity, event, mode, q, a, b);
    } else if DistinctActions(b) {
      SameDistinct(b, a);
    }
  }
}
