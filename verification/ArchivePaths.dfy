/**
 The collision registry for archive member paths. A path is its sequence of components; `fold`
 is Unicode normalization and case folding of one component.
 */
module ArchivePaths {
  import Ordering

  type Path = p: seq<string> | p != [] witness [""]

  datatype Node = File(path: seq<string>) | Directory(path: seq<string>)

  type Nodes = map<seq<string>, Node>

  function Fold(fold: string -> string, p: seq<string>): (f: seq<string>)
    ensures |f| == |p|
  {
    seq(|p|, i requires 0 <= i < |p| => fold(p[i]))
  }

  /** The folded path of the first `n` components. */
  function Key(fold: string -> string, p: seq<string>, n: nat): (k: seq<string>)
    requires n <= |p|
    ensures |k| == n
  {
    Fold(fold, p[..n])
  }

  lemma KeyIsPrefix(fold: string -> string, p: seq<string>, n: nat)
    requires n <= |p|
    ensures Key(fold, p, n) == Fold(fold, p)[..n]
    ensures Key(fold, p, |p|) == Fold(fold, p)
  {
    assert p[..|p|] == p;
  }

  /******* What makes two paths clash *******/

  ghost predicate SpelledAlike(fold: string -> string, p: Path, q: Path, n: nat)
    requires n <= |p| && n <= |q|
  {
    Key(fold, p, n) == Key(fold, q, n) ==> p[..n] == q[..n]
  }

  /** Neither folded path equals or contains the other as a leading part, and shared directories are spelled alike. */
  ghost predicate Compatible(fold: string -> string, p: Path, q: Path) {
    && !(Fold(fold, p) <= Fold(fold, q)) && !(Fold(fold, q) <= Fold(fold, p))
    && forall n: nat | 0 < n < |p| && n < |q| :: SpelledAlike(fold, p, q, n)
  }

  ghost predicate PairwiseCompatible(fold: string -> string, paths: seq<Path>) {
    forall i, j | 0 <= i < j < |paths| :: Compatible(fold, paths[i], paths[j])
  }

  /******* The registry *******/

  ghost predicate ParentOk(fold: string -> string, nodes: Nodes, path: Path, n: nat)
    requires n <= |path|
  {
    Key(fold, path, n) in nodes ==> nodes[Key(fold, path, n)] == Directory(path[..n])
  }

  /** The registry lets `path` in: its key is new, and its parents are directories spelled the same. */
  ghost predicate Admits(fold: string -> string, nodes: Nodes, path: Path) {
    && Fold(fold, path) !in nodes
    && forall n: nat | 0 < n < |path| :: ParentOk(fold, nodes, path, n)
  }

  ghost predicate HasFile(fold: string -> string, nodes: Nodes, p: Path) {
    Fold(fold, p) in nodes && nodes[Fold(fold, p)] == File(p)
  }

  ghost predicate HasDirectory(fold: string -> string, nodes: Nodes, p: Path, n: nat)
    requires n <= |p|
  {
    Key(fold, p, n) in nodes && nodes[Key(fold, p, n)] == Directory(p[..n])
  }

  /** `k` is the key of `p` or of one of its parents. */
  ghost predicate LeadsTo(fold: string -> string, p: Path, k: seq<string>) {
    0 < |k| <= |p| && k == Key(fold, p, |k|)
  }

  /** The registry holds exactly these paths and their parent directories. */
  ghost predicate Holds(fold: string -> string, nodes: Nodes, paths: seq<Path>) {
    && (forall p | p in paths :: HasFile(fold, nodes, p))
    && (forall p, n: nat | p in paths && 0 < n < |p| :: HasDirectory(fold, nodes, p, n))
    && (forall k | k in nodes :: exists p :: p in paths && LeadsTo(fold, p, k))
  }

  class ArchiveRegistry {
    const fold: string -> string
    var nodes: Nodes

    constructor (fold: string -> string)
      ensures this.fold == fold && nodes == map[]
    {
      this.fold := fold;
      nodes := map[];
    }

    /** Register one member path, or refuse it and leave the registry as it was. */
    method Register(path: Path, ghost paths: seq<Path>) returns (ok: bool)
      requires Holds(fold, nodes, paths)
      modifies this`nodes
      ensures ok <==> Admits(fold, old(nodes), path)
      ensures if ok then Holds(fold, nodes, paths + [path]) else nodes == old(nodes)
    {
      hide Fold, Holds;
      var key := Fold(fold, path);
      if key in nodes {
        return false;
      }
      var n := 1;
      while n < |path|
        invariant 1 <= n <= |path|
        invariant forall m: nat | 0 < m < n :: ParentOk(fold, nodes, path, m)
      {
        var parent := Key(fold, path, n);
        if parent in nodes && nodes[parent] != Directory(path[..n]) {
          assert !ParentOk(fold, nodes, path, n);
          return false;
        }
        n := n + 1;
      }
      EnterPath(path, key);
      ok := true;
      NowHolds(fold, old(nodes), nodes, path, paths);
    }

    /** Enter the file, and every parent not yet known. */
    method EnterPath(path: Path, key: seq<string>)
      requires key == Fold(fold, path) && Admits(fold, nodes, path)
      modifies this`nodes
      ensures forall k | k in old(nodes) :: k in nodes && nodes[k] == old(nodes)[k]
      ensures HasFile(fold, nodes, path)
      ensures forall m: nat | 0 < m < |path| :: HasDirectory(fold, nodes, path, m)
      ensures forall k | k in nodes :: k in old(nodes) || LeadsTo(fold, path, k)
    {
      KeyIsPrefix(fold, path, |path|);
      hide Fold, Key;
      nodes := nodes[key := File(path)];
      var n := 1;
      while n < |path|
        invariant 1 <= n <= |path|
        invariant forall k | k in old(nodes) :: k in nodes && nodes[k] == old(nodes)[k]
        invariant HasFile(fold, nodes, path)
        invariant forall m: nat | 0 < m < n :: HasDirectory(fold, nodes, path, m)
        invariant forall k | k in nodes :: k in old(nodes) || (LeadsTo(fold, path, k) && (|k| < n || k == key))
      {
        assert ParentOk(fold, old(nodes), path, n);
        var parent := Key(fold, path, n);
        ghost var before := nodes;
        if parent !in nodes {
          nodes := nodes[parent := Directory(path[..n])];
        }
        DirectoriesKept(fold, before, nodes, path, n);
        n := n + 1;
      }
    }

    /** Register every member of an archive in order. */
    method RegisterAll(paths: seq<Path>) returns (ok: bool)
      requires nodes == map[]
      modifies this`nodes
      ensures ok <==> PairwiseCompatible(fold, paths)
      ensures ok ==> Holds(fold, nodes, paths)
    {
      hide Compatible, Admits;
      var i := 0;
      while i < |paths|
        invariant 0 <= i <= |paths|
        invariant Holds(fold, nodes, paths[..i]) && PairwiseCompatible(fold, paths[..i])
      {
        AdmitsIffCompatible(fold, nodes, paths[..i], paths[i]);
        ok := Register(paths[i], paths[..i]);
        if !ok {
          assert exists j :: 0 <= j < i && !Compatible(fold, paths[..i][j], paths[i]);
          return;
        }
        assert paths[..i + 1] == paths[..i] + [paths[i]];
        i := i + 1;
      }
      assert paths[..i] == paths;
      ok := true;
    }
  }

  /** Adding an entry keeps the directories already entered. */
  lemma DirectoriesKept(fold: string -> string, before: Nodes, after: Nodes, path: Path, n: nat)
    requires forall k | k in before :: k in after && after[k] == before[k]
    requires n <= |path| && forall m: nat | 0 < m < n :: HasDirectory(fold, before, path, m)
    ensures forall m: nat | 0 < m < n :: HasDirectory(fold, after, path, m)
  {
    hide Key;
    forall m: nat | 0 < m < n
      ensures HasDirectory(fold, after, path, m)
    {
      assert HasDirectory(fold, before, path, m);
    }
  }

  lemma NowHolds(fold: string -> string, before: Nodes, after: Nodes, path: Path, paths: seq<Path>)
    requires Holds(fold, before, paths)
    requires forall k | k in before :: k in after && after[k] == before[k]
    requires HasFile(fold, after, path)
    requires forall m: nat | 0 < m < |path| :: HasDirectory(fold, after, path, m)
    requires forall k | k in after :: k in before || LeadsTo(fold, path, k)
    ensures Holds(fold, after, paths + [path])
  {
    hide Fold, Key, LeadsTo;
    var all := paths + [path];
    assert forall p :: p in all <==> p in paths || p == path;
    forall p | p in paths
      ensures HasFile(fold, after, p) && forall n: nat | 0 < n < |p| :: HasDirectory(fold, after, p, n)
    {
      assert HasFile(fold, before, p);
      DirectoriesKept(fold, before, after, p, |p|);
    }
    hide HasFile, HasDirectory;
    forall k | k in after
      ensures exists p :: p in all && LeadsTo(fold, p, k)
    {
      if k in before {
        var p :| p in paths && LeadsTo(fold, p, k);
        assert p in all;
      } else {
        assert path in all;
      }
    }
  }

  /** Against the paths held so far, the registry's test is the pairwise test. */
  lemma AdmitsIffCompatible(fold: string -> string, nodes: Nodes, paths: seq<Path>, q: Path)
    requires Holds(fold, nodes, paths)
    ensures Admits(fold, nodes, q) <==> forall i | 0 <= i < |paths| :: Compatible(fold, paths[i], q)
  {
    if Admits(fold, nodes, q) {
      forall i | 0 <= i < |paths|
        ensures Compatible(fold, paths[i], q)
      {
        AdmittedIsCompatible(fold, nodes, paths, paths[i], q);
      }
    }
    if forall i | 0 <= i < |paths| :: Compatible(fold, paths[i], q) {
      CompatibleIsAdmitted(fold, nodes, paths, q);
    }
  }

  lemma PrefixSlice(a: seq<string>, b: seq<string>)
    ensures a <= b ==> b[..|a|] == a
  {
  }

  lemma AdmittedIsCompatible(fold: string -> string, nodes: Nodes, paths: seq<Path>, p: Path, q: Path)
    requires Holds(fold, nodes, paths) && Admits(fold, nodes, q) && p in paths
    ensures Compatible(fold, p, q)
  {
    hide Fold;
    PrefixSlice(Fold(fold, p), Fold(fold, q));
    PrefixSlice(Fold(fold, q), Fold(fold, p));
    assert HasFile(fold, nodes, p);
    KeyIsPrefix(fold, p, |p|);
    KeyIsPrefix(fold, q, |q|);
    if |p| <= |q| {
      KeyIsPrefix(fold, q, |p|);
      assert |p| < |q| ==> ParentOk(fold, nodes, q, |p|);
    }
    if |q| <= |p| {
      KeyIsPrefix(fold, p, |q|);
      assert |q| < |p| ==> HasDirectory(fold, nodes, p, |q|);
    }
    forall n: nat | 0 < n < |p| && n < |q|
      ensures SpelledAlike(fold, p, q, n)
    {
      assert HasDirectory(fold, nodes, p, n) && ParentOk(fold, nodes, q, n);
    }
  }

  lemma CompatibleIsAdmitted(fold: string -> string, nodes: Nodes, paths: seq<Path>, q: Path)
    requires Holds(fold, nodes, paths) && forall i | 0 <= i < |paths| :: Compatible(fold, paths[i], q)
    ensures Admits(fold, nodes, q)
  {
    hide Fold, Holds;
    KeyIsPrefix(fold, q, |q|);
    if Fold(fold, q) in nodes {
      NoClash(fold, nodes, paths, q, |q|);
    }
    forall n: nat | 0 < n < |q|
      ensures ParentOk(fold, nodes, q, n)
    {
      if Key(fold, q, n) in nodes {
        NoClash(fold, nodes, paths, q, n);
      }
    }
  }

  lemma NoClash(fold: string -> string, nodes: Nodes, paths: seq<Path>, q: Path, n: nat)
    requires Holds(fold, nodes, paths) && forall i | 0 <= i < |paths| :: Compatible(fold, paths[i], q)
    requires 0 < n <= |q| && Key(fold, q, n) in nodes
    ensures n < |q| && nodes[Key(fold, q, n)] == Directory(q[..n])
  {
    hide Fold, Key, Compatible;
    var k := Key(fold, q, n);
    assert exists p :: p in paths && LeadsTo(fold, p, k);
    var p :| p in paths && LeadsTo(fold, p, k);
    var i :| 0 <= i < |paths| && paths[i] == p;
    assert Compatible(fold, paths[i], q);
    SharedKey(fold, p, q, n);
    assert HasDirectory(fold, nodes, p, n);
  }

  /** Compatible paths share a key only as a proper parent of both, spelled alike. */
  lemma SharedKey(fold: string -> string, p: Path, q: Path, n: nat)
    requires Compatible(fold, p, q) && 0 < n <= |p| && n <= |q| && Key(fold, p, n) == Key(fold, q, n)
    ensures n < |p| && n < |q| && p[..n] == q[..n]
  {
    KeyIsPrefix(fold, q, n);
    KeyIsPrefix(fold, p, n);
    hide Fold, Key;
    var x, y := Fold(fold, p), Fold(fold, q);
    assert n == |p| ==> x <= y;
    assert n == |q| ==> y <= x;
    assert SpelledAlike(fold, p, q, n);
  }

  /******* Order does not matter *******/

  lemma CompatibleSymmetric(fold: string -> string, p: Path, q: Path)
    requires Compatible(fold, p, q)
    ensures Compatible(fold, q, p)
  {
    forall n: nat | 0 < n < |p| && n < |q|
      ensures SpelledAlike(fold, q, p, n)
    {
      assert SpelledAlike(fold, p, q, n);
    }
  }

  /** A pairwise compatible sequence repeats nothing, so its members stand at different places. */
  lemma CompatibleMembers(fold: string -> string, a: seq<Path>, x: Path, y: Path)
    requires PairwiseCompatible(fold, a)
    requires x in a && y in a && (x == y ==> multiset(a)[x] >= 2)
    ensures Compatible(fold, x, y)
  {
    hide Compatible;
    if x == y {
      var i, j := Ordering.FindTwice(a, x);
      assert Compatible(fold, a[i], a[j]);
    } else {
      var i :| 0 <= i < |a| && a[i] == x;
      var j :| 0 <= j < |a| && a[j] == y;
      if i < j {
        assert Compatible(fold, a[i], a[j]);
      } else {
        CompatibleSymmetric(fold, a[j], a[i]);
      }
    }
  }

  lemma PermutedCompatible(fold: string -> string, a: seq<Path>, b: seq<Path>)
    requires multiset(a) == multiset(b) && PairwiseCompatible(fold, a)
    ensures PairwiseCompatible(fold, b)
  {
    hide Compatible;
    forall i, j | 0 <= i < j < |b|
      ensures Compatible(fold, b[i], b[j])
    {
      assert b[i] in multiset(a) && b[j] in multiset(a);
      if b[i] == b[j] {
        Ordering.TwoPlaces(b, i, j);
      }
      CompatibleMembers(fold, a, b[i], b[j]);
    }
  }

  /** Acceptance, and the registry it leaves, do not depend on member order. */
  lemma OrderIrrelevant(fold: string -> string, a: seq<Path>, b: seq<Path>, x: Nodes, y: Nodes)
    requires multiset(a) == multiset(b)
    ensures PairwiseCompatible(fold, a) <==> PairwiseCompatible(fold, b)
    ensures Holds(fold, x, a) && Holds(fold, y, b) ==> x == y
  {
    hide PairwiseCompatible, Holds;
    if PairwiseCompatible(fold, a) {
      PermutedCompatible(fold, a, b);
    }
    if PairwiseCompatible(fold, b) {
      PermutedCompatible(fold, b, a);
    }
    if Holds(fold, x, a) && Holds(fold, y, b) {
      assert forall p :: p in a <==> p in multiset(a);
      assert forall p :: p in b <==> p in multiset(b);
      HeldTwice(fold, a, b, x, y);
      HeldTwice(fold, b, a, y, x);
    }
  }

  lemma HeldTwice(fold: string -> string, a: seq<Path>, b: seq<Path>, x: Nodes, y: Nodes)
    requires Holds(fold, x, a) && Holds(fold, y, b) && forall p :: p in a <==> p in b
    ensures forall k | k in x :: k in y && x[k] == y[k]
  {
    hide Holds, LeadsTo;
    forall k | k in x
      ensures k in y && x[k] == y[k]
    {
      var p := Reached(fold, x, a, k);
      assert p in b;
      NodeFixed(fold, a, x, p, k);
      NodeFixed(fold, b, y, p, k);
    }
  }

  lemma Reached(fold: string -> string, nodes: Nodes, paths: seq<Path>, k: seq<string>) returns (p: Path)
    requires Holds(fold, nodes, paths) && k in nodes
    ensures p in paths && LeadsTo(fold, p, k)
  {
    hide LeadsTo, HasFile, HasDirectory;
    p :| p in paths && LeadsTo(fold, p, k);
  }

  /** What a registry stores under a key is settled by any one path that leads to it. */
  lemma NodeFixed(fold: string -> string, paths: seq<Path>, nodes: Nodes, p: Path, k: seq<string>)
    requires Holds(fold, nodes, paths) && p in paths && LeadsTo(fold, p, k)
    ensures k in nodes && nodes[k] == if |k| == |p| then File(p) else Directory(p[..|k|])
  {
    hide Fold;
    KeyIsPrefix(fold, p, |p|);
    assert HasFile(fold, nodes, p);
    assert |k| < |p| ==> HasDirectory(fold, nodes, p, |k|);
  }
}
