/**
 Building the candidate evidence tree: the needed directories by depth, then the leaves. Creating a
 directory or a leaf fails when its parent is missing or its name is taken.
 */
module EvidenceTree {
  import opened Basics
  import Ordering

  type Path = seq<string>

  function Parent(p: Path): Path
    requires p != []
  {
    p[..|p| - 1]
  }

  function Text(p: Path): string {
    if p == [] then "" else if |p| == 1 then p[0] else Text(Parent(p)) + "/" + p[|p| - 1]
  }

  /** Every proper, non-empty prefix of a payload path. */
  ghost function Needed(keys: set<Path>): set<Path> {
    set p, n | p in keys && 0 < n < |p| :: p[..n]
  }

  /** No payload path runs through another payload. */
  ghost predicate NonNesting(keys: set<Path>) {
    forall p, n | p in keys && 0 < n < |p| :: p[..n] !in keys
  }

  /******* Order of creation *******/

  predicate Shallower(p: Path, q: Path) {
    |p| < |q| || (|p| == |q| && Ordering.Less(Text(p), Text(q)))
  }

  function ByDepth(): (Path, Path) -> bool {
    (p: Path, q: Path) => Shallower(p, q)
  }

  function ByText(): (Path, Path) -> bool {
    (p: Path, q: Path) => Ordering.Less(Text(p), Text(q))
  }

  lemma DepthIsOrder()
    ensures Ordering.StrictWeak(ByDepth())
  {
    hide Ordering.Less, Text;
    forall x: Path, y: Path
      ensures ByDepth()(x, y) ==> !ByDepth()(y, x)
    {
      Ordering.LessTotal(Text(x), Text(y));
    }
    forall x: Path, y: Path, z: Path
      ensures ByDepth()(x, y) && ByDepth()(y, z) ==> ByDepth()(x, z)
      ensures !ByDepth()(x, y) && !ByDepth()(y, z) ==> !ByDepth()(x, z)
    {
      var a, b, c := Text(x), Text(y), Text(z);
      Ordering.LessTotal(a, b);
      Ordering.LessTotal(b, c);
      Ordering.LessTotal(a, c);
      if Ordering.Less(a, b) && Ordering.Less(b, c) { Ordering.LessTransitive(a, b, c); }
      if Ordering.Less(b, a) && Ordering.Less(a, c) { Ordering.LessTransitive(b, a, c); }
      if Ordering.Less(a, c) && Ordering.Less(c, b) { Ordering.LessTransitive(a, c, b); }
    }
  }

  /** In depth order, a needed directory comes after its parent. */
  lemma ParentFirst(ds: seq<Path>, keys: set<Path>, i: nat)
    requires multiset(ds) == multiset(Needed(keys)) && Ordering.SortedBy(ByDepth(), ds) && i < |ds|
    ensures ds[i] != [] && (Parent(ds[i]) == [] || Parent(ds[i]) in ds[..i])
  {
    Ordering.Enumerates(ds, Needed(keys));
    assert ds[i] in ds;
    var p, n :| p in keys && 0 < n < |p| && ds[i] == p[..n];
    if n > 1 {
      assert Parent(ds[i]) == p[..n - 1];
      assert p[..n - 1] in Needed(keys);
      var k :| 0 <= k < |ds| && ds[k] == p[..n - 1];
      assert ByDepth()(ds[k], ds[i]);
      assert ds[..i][k] == ds[k];
    }
  }

  function Elements(s: seq<Path>): set<Path> {
    set p | p in s
  }

  /** The next directory is new and its parent is already there. */
  lemma NextDirectory(ds: seq<Path>, keys: set<Path>, i: nat)
    requires multiset(ds) == multiset(Needed(keys)) && Ordering.SortedBy(ByDepth(), ds) && i < |ds|
    ensures ds[i] != [] && Parent(ds[i]) in {[]} + Elements(ds[..i]) && ds[i] !in {[]} + Elements(ds[..i])
    ensures Elements(ds[..i + 1]) == Elements(ds[..i]) + {ds[i]}
  {
    ParentFirst(ds, keys, i);
    NextIsNew(ds, Needed(keys), i);
  }

  lemma NextIsNew(s: seq<Path>, names: set<Path>, i: nat)
    requires multiset(s) == multiset(names) && i < |s|
    ensures s[i] in names && s[i] !in Elements(s[..i])
    ensures Elements(s[..i + 1]) == Elements(s[..i]) + {s[i]}
  {
    Ordering.Enumerates(s, names);
    assert s[i] in s;
    assert s[..i + 1] == s[..i] + [s[i]];
  }

  lemma AllElements(s: seq<Path>, names: set<Path>)
    requires multiset(s) == multiset(names)
    ensures Elements(s[..|s|]) == names
  {
    Ordering.Enumerates(s, names);
    assert s[..|s|] == s;
  }

  lemma Sorts(lt: (Path, Path) -> bool, s: seq<Path>, sorted: seq<Path>)
    requires sorted == Ordering.Sort(lt, s)
    ensures multiset(sorted) == multiset(s)
    ensures Ordering.StrictWeak(lt) ==> Ordering.SortedBy(lt, sorted)
  {
    Ordering.SortPermutes(lt, s);
    if Ordering.StrictWeak(lt) { Ordering.SortSorts(lt, s); }
  }

  /** The parents of the first `i` paths, and of the next one up to length `n`. */
  ghost predicate Collected(order: seq<Path>, i: nat, n: nat, s: seq<Path>) {
    && i <= |order| && Ordering.Distinct(s)
    && (forall d :: d in s <==> exists j, m | 0 <= j < |order| && 0 < m < |order[j]| ::
          (j < i || (j == i && m < n)) && d == order[j][..m])
  }

  /** Every parent of every path, once. */
  method CollectParents(order: seq<Path>, ghost keys: set<Path>) returns (needed: seq<Path>)
    requires multiset(order) == multiset(keys)
    ensures multiset(needed) == multiset(Needed(keys))
  {
    needed := [];
    hide Needed, Collected;
    CollectNothing(order);
    for i := 0 to |order|
      invariant Collected(order, i, 1, needed)
    {
      var n := 1;
      while n < |order[i]|
        invariant 1 <= n && (n <= |order[i]| || n == 1) && Collected(order, i, n, needed)
      {
        CollectOne(order, i, n, needed);
        if order[i][..n] !in needed {
          needed := needed + [order[i][..n]];
        }
        n := n + 1;
      }
      CollectNext(order, i, n, needed);
    }
    CollectAll(order, keys, needed);
  }

  lemma CollectNothing(order: seq<Path>)
    ensures Collected(order, 0, 1, [])
  {
  }

  lemma CollectOne(order: seq<Path>, i: nat, n: nat, s: seq<Path>)
    requires i < |order| && 0 < n < |order[i]| && Collected(order, i, n, s)
    ensures Collected(order, i, n + 1, if order[i][..n] in s then s else s + [order[i][..n]])
  {
    var next := order[i][..n];
    forall d: Path
      ensures (d in s || d == next) <==> exists j, m | 0 <= j < |order| && 0 < m < |order[j]| ::
          (j < i || (j == i && m < n + 1)) && d == order[j][..m]
    {
      if d in s {
        var j, m :| 0 <= j < |order| && 0 < m < |order[j]| && (j < i || (j == i && m < n)) && d == order[j][..m];
        assert j < i || (j == i && m < n + 1);
      }
    }
  }

  lemma CollectNext(order: seq<Path>, i: nat, n: nat, s: seq<Path>)
    requires i < |order| && n >= |order[i]| && Collected(order, i, n, s)
    ensures Collected(order, i + 1, 1, s)
  {
  }

  lemma CollectAll(order: seq<Path>, keys: set<Path>, s: seq<Path>)
    requires multiset(order) == multiset(keys) && Collected(order, |order|, 1, s)
    ensures multiset(s) == multiset(Needed(keys))
  {
    Ordering.Enumerates(order, keys);
    Ordering.DistinctEnumerates(s);
    forall d: Path
      ensures d in s <==> d in Needed(keys)
    {
      if d in Needed(keys) {
        var p, n :| p in keys && 0 < n < |p| && d == p[..n];
        assert p in order;
        var j :| 0 <= j < |order| && order[j] == p;
      }
    }
    assert (set d | d in s) == Needed(keys);
  }

  class CandidateTree {
    var directories: set<Path>
    var files: map<Path, Raw>

    constructor ()
      ensures directories == {[]} && files == map[]
    {
      directories, files := {[]}, map[];
    }

    predicate Free(p: Path) reads this
      requires p != []
    {
      Parent(p) in directories && p !in directories && p !in files
    }

    method MakeDirectory(p: Path) returns (ok: bool)
      requires p != []
      modifies this`directories
      ensures ok == old(Free(p))
      ensures directories == old(directories) + if ok then {p} else {}
    {
      ok := Free(p);
      if ok { directories := directories + {p}; }
    }

    method WriteLeaf(p: Path, raw: Raw) returns (ok: bool)
      requires p != []
      modifies this`files
      ensures ok == old(Free(p))
      ensures files == if ok then old(files)[p := raw] else old(files)
    {
      ok := Free(p);
      if ok { files := files[p := raw]; }
    }

    /** `needed` lists the directory set in some order. */
    method MakeDirectories(ghost keys: set<Path>, needed: seq<Path>) returns (ok: bool)
      requires directories == {[]} && files == map[] && multiset(needed) == multiset(Needed(keys))
      modifies this`directories
      ensures ok && directories == {[]} + Needed(keys)
    {
      var ds := Ordering.Sort(ByDepth(), needed);
      DepthIsOrder();
      Sorts(ByDepth(), needed, ds);
      hide Elements, Needed, Parent, ByDepth;
      for i := 0 to |ds|
        invariant directories == {[]} + Elements(ds[..i])
      {
        NextDirectory(ds, keys, i);
        ok := MakeDirectory(ds[i]);
        if !ok { return; }
      }
      AllElements(ds, Needed(keys));
      return true;
    }

    method WriteLeaves(payloads: map<Path, Raw>, order: seq<Path>) returns (ok: bool)
      requires [] !in payloads && multiset(order) == multiset(payloads.Keys)
      requires directories == {[]} + Needed(payloads.Keys) && files == map[]
      modifies this`files
      ensures ok <==> NonNesting(payloads.Keys)
      ensures ok ==> files == payloads
    {
      var ps := Ordering.Sort(ByText(), order);
      Sorts(ByText(), order, ps);
      ok := WriteInOrder(payloads, ps);
    }

    method WriteInOrder(payloads: map<Path, Raw>, ps: seq<Path>) returns (ok: bool)
      requires [] !in payloads && multiset(ps) == multiset(payloads.Keys)
      requires directories == {[]} + Needed(payloads.Keys) && files == map[]
      modifies this`files
      ensures ok <==> NonNesting(payloads.Keys)
      ensures ok ==> files == payloads
    {
      NothingWritten(payloads, ps[..0]);
      hide Elements, Needed, Parent, NonNesting, Written;
      for i := 0 to |ps|
        invariant Written(payloads, files, Elements(ps[..i]))
      {
        NextIsNew(ps, payloads.Keys, i);
        ParentNeeded(payloads.Keys, ps[i]);
        ghost var before := files;
        LeafFree(payloads, files, Elements(ps[..i]), ps[i]);
        ok := WriteLeaf(ps[i], payloads[ps[i]]);
        if !ok {
          NestingFound(payloads.Keys, ps[i]);
          return;
        }
        WriteNext(payloads, before, Elements(ps[..i]), ps[i]);
      }
      AllElements(ps, payloads.Keys);
      AllWritten(payloads, files);
      return true;
    }

    /**
     The whole builder succeeds exactly on non-nesting payloads, and then the tree is the payloads.
     `order` lists the payload paths in some order.
     */
    method Build(payloads: map<Path, Raw>, order: seq<Path>) returns (ok: bool)
      requires directories == {[]} && files == map[] && [] !in payloads
      requires multiset(order) == multiset(payloads.Keys)
      modifies this
      ensures ok <==> NonNesting(payloads.Keys)
      ensures ok ==> files == payloads && directories == {[]} + Needed(payloads.Keys)
    {
      var needed := CollectParents(order, payloads.Keys);
      ok := MakeDirectories(payloads.Keys, needed);
      ok := WriteLeaves(payloads, order);
    }
  }

  lemma ParentNeeded(keys: set<Path>, p: Path)
    requires p in keys && p != []
    ensures Parent(p) in {[]} + Needed(keys)
  {
    assert |p| > 1 ==> p[..|p| - 1] in Needed(keys);
  }

  lemma NestingFound(keys: set<Path>, p: Path)
    requires p in keys && p in Needed(keys)
    ensures !NonNesting(keys)
  {
    var q, n :| q in keys && 0 < n < |q| && p == q[..n];
  }

  /** The payloads in `done` are written, and none of them is a directory. */
  ghost predicate Written(payloads: map<Path, Raw>, files: map<Path, Raw>, done: set<Path>) {
    && files.Keys == done <= payloads.Keys && done !! Needed(payloads.Keys)
    && forall p | p in files :: files[p] == payloads[p]
  }

  lemma NothingWritten(payloads: map<Path, Raw>, none: seq<Path>)
    requires none == []
    ensures Written(payloads, map[], Elements(none))
  {
  }

  lemma LeafFree(payloads: map<Path, Raw>, files: map<Path, Raw>, done: set<Path>, p: Path)
    requires Written(payloads, files, done) && p !in done
    ensures p !in files
  {
  }

  lemma WriteNext(payloads: map<Path, Raw>, files: map<Path, Raw>, done: set<Path>, p: Path)
    requires Written(payloads, files, done) && p in payloads && p !in Needed(payloads.Keys)
    ensures Written(payloads, files[p := payloads[p]], done + {p})
  {
  }

  lemma AllWritten(payloads: map<Path, Raw>, files: map<Path, Raw>)
    requires Written(payloads, files, payloads.Keys)
    ensures files == payloads && NonNesting(payloads.Keys)
  {
    NothingNests(payloads.Keys);
  }

  lemma NothingNests(keys: set<Path>)
    requires forall p | p in keys :: p !in Needed(keys)
    ensures NonNesting(keys)
  {
    forall p, n | p in keys && 0 < n < |p|
      ensures p[..n] !in keys
    {
      assert p[..n] in Needed(keys);
    }
  }
}
