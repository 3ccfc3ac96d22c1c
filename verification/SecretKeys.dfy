/** The secret-key check over a finite object graph that may be shared and cyclic. */
module SecretKeys {

  type Id = nat

  datatype Key = Text(text: string) | NotText

  /** Strings, bytes and every other value are leaves. */
  datatype Value = Mapping(items: seq<(Key, Id)>) | Sequence(elements: seq<Id>) | Leaf

  function Children(v: Value): seq<Id> {
    match v
    case Mapping(items) => seq(|items|, i requires 0 <= i < |items| => items[i].1)
    case Sequence(elements) => elements
    case Leaf => []
  }

  type Graph = g: map<Id, Value> | forall n | n in g :: forall c | c in Children(g[n]) :: c in g

  predicate SecretKey(secret: string -> bool, k: Key) {
    k.Text? && secret(k.text)
  }

  predicate HoldsSecret(secret: string -> bool, v: Value) {
    v.Mapping? && exists i | 0 <= i < |v.items| :: SecretKey(secret, v.items[i].0)
  }

  ghost predicate Path(g: Graph, p: seq<Id>) {
    p != [] && p[0] in g && forall i | 0 <= i < |p| - 1 :: p[i] in g && p[i + 1] in Children(g[p[i]])
  }

  ghost predicate Reaches(g: Graph, a: Id, b: Id) {
    exists p :: Path(g, p) && p[0] == a && p[|p| - 1] == b
  }

  /** Some mapping reachable from `a` has a secret-like string key. */
  ghost predicate LeaksFrom(g: Graph, secret: string -> bool, a: Id) {
    exists b | b in g :: Reaches(g, a, b) && HoldsSecret(secret, g[b])
  }

  lemma LeaksHere(g: Graph, secret: string -> bool, a: Id)
    requires a in g && HoldsSecret(secret, g[a])
    ensures LeaksFrom(g, secret, a)
  {
    assert Path(g, [a]);
    assert [a][0] == a && [a][|[a]| - 1] == a;
    assert Reaches(g, a, a);
  }

  lemma LeaksBelow(g: Graph, secret: string -> bool, a: Id, c: Id)
    requires a in g && c in Children(g[a]) && LeaksFrom(g, secret, c)
    ensures LeaksFrom(g, secret, a)
  {
    hide Children, HoldsSecret, Path;
    var b :| b in g && Reaches(g, c, b) && HoldsSecret(secret, g[b]);
    ReachesAbove(g, a, c, b);
    hide Reaches;
  }

  lemma ReachesAbove(g: Graph, a: Id, c: Id, b: Id)
    requires a in g && c in Children(g[a]) && Reaches(g, c, b)
    ensures Reaches(g, a, b)
  {
    var p :| Path(g, p) && p[0] == c && p[|p| - 1] == b;
    PathAbove(g, a, p);
    var q := [a] + p;
    assert q[0] == a && q[|q| - 1] == b;
  }

  lemma PathAbove(g: Graph, a: Id, p: seq<Id>)
    requires a in g && Path(g, p) && p[0] in Children(g[a])
    ensures Path(g, [a] + p)
  {
    hide Children;
    var q := [a] + p;
    forall i | 0 <= i < |q| - 1
      ensures q[i] in g && q[i + 1] in Children(g[q[i]])
    {
      if i > 0 { assert q[i] == p[i - 1] && q[i + 1] == p[i]; }
    }
  }

  /** A visited container: no secret-like key, and its container children are visited too. */
  ghost predicate Done(g: Graph, secret: string -> bool, n: Id, seen: set<Id>) {
    n in g && !HoldsSecret(secret, g[n]) && forall c | c in Children(g[n]) :: Visited(g, c, seen)
  }

  predicate Visited(g: Graph, n: Id, seen: set<Id>) {
    n in g && (g[n].Leaf? || n in seen)
  }

  ghost predicate AllDone(g: Graph, secret: string -> bool, ns: set<Id>, seen: set<Id>) {
    forall n | n in ns :: Done(g, secret, n, seen)
  }

  /** What was done stays done as more is visited. */
  lemma DoneGrows(g: Graph, secret: string -> bool, base: set<Id>, seen: set<Id>, more: set<Id>)
    requires base <= seen <= more && AllDone(g, secret, seen - base, seen) && AllDone(g, secret, more - seen, more)
    ensures AllDone(g, secret, more - base, more)
  {
    forall n | n in more - base
      ensures Done(g, secret, n, more)
    {
      if n in seen { assert n in seen - base; } else { assert n in more - seen; }
    }
  }

  lemma {:induction false} DoneCoversPaths(g: Graph, secret: string -> bool, seen: set<Id>, p: seq<Id>)
    requires AllDone(g, secret, seen, seen)
    requires Path(g, p) && Visited(g, p[0], seen)
    ensures p[|p| - 1] in g && !HoldsSecret(secret, g[p[|p| - 1]])
    decreases |p|
  {
    if |p| > 1 {
      assert p[1] in Children(g[p[0]]);
      DoneCoversPaths(g, secret, seen, p[1..]);
    }
  }

  /** The recursive walk; `seen` holds the identities of the containers entered so far. */
  class Walk {
    const graph: Graph
    const secret: string -> bool
    var seen: set<Id>

    constructor (graph: Graph, secret: string -> bool)
      ensures this.graph == graph && this.secret == secret && seen == {}
    {
      this.graph, this.secret, seen := graph, secret, {};
    }

    method Visit(v: Id) returns (raised: bool)
      requires v in graph && seen <= graph.Keys
      modifies this
      ensures old(seen) <= seen <= graph.Keys
      ensures raised ==> LeaksFrom(graph, secret, v)
      ensures !raised ==> Visited(graph, v, seen)
      ensures !raised ==> AllDone(graph, secret, seen - old(seen), seen)
      decreases |graph.Keys - seen|
    {
      if graph[v].Leaf? || v in seen {
        return false;
      }
      ghost var before := seen;
      seen := seen + {v};
      Shrinks(graph.Keys, before, seen, v);
      ghost var entered := seen;
      var children := Children(graph[v]);
      assert VisitedUpTo(graph, children, 0, seen) && AllDone(graph, secret, seen - entered, seen);
      hide AllDone, LeaksFrom, HoldsSecret, Visited, VisitedUpTo;
      for i := 0 to |children|
        invariant entered <= seen <= graph.Keys
        invariant VisitedUpTo(graph, children, i, seen)
        invariant NoSecretBefore(secret, graph[v], i)
        invariant AllDone(graph, secret, seen - entered, seen)
      {
        assert children[i] in Children(graph[v]);
        if graph[v].Mapping? && SecretKey(secret, graph[v].items[i].0) {
          SecretFound(secret, graph[v], i);
          LeaksHere(graph, secret, v);
          return true;
        }
        Shrinks(graph.Keys, before, seen, v);
        ghost var current := seen;
        raised := Visit(children[i]);
        if raised {
          LeaksBelow(graph, secret, v, children[i]);
          return true;
        }
        DoneGrows(graph, secret, entered, current, seen);
        VisitedGrows(graph, children, i, current, seen);
      }
      FinishNode(graph, secret, before, seen, v);
      return false;
    }
  }

  predicate NoSecretBefore(secret: string -> bool, v: Value, i: nat) {
    v.Mapping? ==> forall j | 0 <= j < |v.items| && j < i :: !SecretKey(secret, v.items[j].0)
  }

  predicate VisitedUpTo(g: Graph, children: seq<Id>, i: nat, seen: set<Id>) {
    forall j | 0 <= j < |children| && j < i :: Visited(g, children[j], seen)
  }

  lemma VisitedGrows(g: Graph, children: seq<Id>, i: nat, seen: set<Id>, more: set<Id>)
    requires VisitedUpTo(g, children, i, seen) && seen <= more && i < |children| && Visited(g, children[i], more)
    ensures VisitedUpTo(g, children, i + 1, more)
  {
  }

  lemma SecretFound(secret: string -> bool, v: Value, i: nat)
    requires v.Mapping? && i < |v.items| && SecretKey(secret, v.items[i].0)
    ensures HoldsSecret(secret, v)
  {
  }

  /** A node whose keys were all checked and children all visited is done. */
  lemma FinishNode(g: Graph, secret: string -> bool, before: set<Id>, seen: set<Id>, v: Id)
    requires v in g && before <= seen && AllDone(g, secret, seen - (before + {v}), seen)
    requires NoSecretBefore(secret, g[v], |Children(g[v])|)
    requires VisitedUpTo(g, Children(g[v]), |Children(g[v])|, seen)
    ensures AllDone(g, secret, seen - before, seen)
  {
    assert Done(g, secret, v, seen);
    forall n | n in seen - before
      ensures Done(g, secret, n, seen)
    {
      if n != v { assert n in seen - (before + {v}); }
    }
  }

  lemma Shrinks(all: set<Id>, before: set<Id>, seen: set<Id>, v: Id)
    requires v in all && v !in before && before + {v} <= seen
    ensures |all - seen| < |all - before|
  {
    assert all - seen <= all - before - {v};
    Smaller(all - seen, all - before - {v});
  }

  lemma Smaller(a: set<Id>, b: set<Id>)
    requires a <= b
    ensures |a| <= |b|
  {
    assert b == a + (b - a);
  }

  /** The check raises exactly when a mapping reachable from the root has a secret-like string key. */
  method RejectSecretLikeKeys(graph: Graph, secret: string -> bool, root: Id) returns (raised: bool)
    requires root in graph
    ensures raised <==> LeaksFrom(graph, secret, root)
  {
    var walk := new Walk(graph, secret);
    raised := walk.Visit(root);
    if !raised {
      assert walk.seen - {} == walk.seen;
      forall p | Path(graph, p) && p[0] == root
        ensures p[|p| - 1] in graph && !HoldsSecret(secret, graph[p[|p| - 1]])
      {
        DoneCoversPaths(graph, secret, walk.seen, p);
      }
    }
  }
}
