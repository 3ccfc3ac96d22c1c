/**
 Publishing an evidence set: derive the manifest and the index, build the candidate tree, read it
 back, validate it, rename it into place without replacing, and validate what was published.

 Staged names come from a directory listing, so none has a "." component: on such names splitting
 at slashes is what the path library does.
 */
module EvidencePublication {
  import opened Basics
  import Ordering
  import opened EvidenceTree
  import opened Checksums
  import opened EvidenceSet

  /******* Names and paths *******/

  lemma {:induction false} TextCons(a: string, rest: Path)
    requires rest != []
    ensures Text([a] + rest) == a + "/" + Text(rest)
  {
    var p := [a] + rest;
    if |rest| == 1 {
      assert Parent(p) == [a] && Text([a]) == a;
    } else {
      assert Parent(p) == [a] + Parent(rest) && p[|p| - 1] == rest[|rest| - 1];
      TextCons(a, Parent(rest));
    }
  }

  lemma {:induction false} TextPrepends(c: char, a: string, rest: Path)
    ensures Text([[c] + a] + rest) == [c] + Text([a] + rest)
  {
    if rest == [] {
      assert [[c] + a] + rest == [[c] + a] && [a] + rest == [a];
    } else {
      TextCons([c] + a, rest);
      TextCons(a, rest);
    }
  }

  /** Joining the components of a name gives the name back. */
  lemma {:induction false} JoinSplits(k: Name)
    ensures Text(Components(k)) == k
  {
    if k != "" {
      var rest := Components(k[1..]);
      JoinSplits(k[1..]);
      hide Text;
      if k[0] == '/' {
        TextCons("", rest);
      } else {
        assert rest == [rest[0]] + rest[1..];
        TextPrepends(k[0], rest[0], rest[1..]);
      }
    }
  }

  ghost predicate AreNames(ps: set<Path>) {
    forall p | p in ps :: Components(Text(p)) == p
  }

  /** The files as a tree of paths. */
  function AsTree(files: Files): (t: map<Path, Raw>)
    ensures forall k | k in files :: Components(k) in t && t[Components(k)] == files[k]
    ensures forall p | p in t :: Text(p) in files && p == Components(Text(p))
  {
    assert forall k | k in files :: Text(Components(k)) == k by {
      forall k | k in files
        ensures Text(Components(k)) == k
      {
        JoinSplits(k);
      }
    }
    map k | k in files :: Components(k) := files[k]
  }

  /** The tree read back as named leaves. */
  function Snapshot(t: map<Path, Raw>): Files
    requires AreNames(t.Keys)
  {
    map p | p in t :: Text(p) := t[p]
  }

  lemma SnapshotOfTree(files: Files)
    ensures AreNames(AsTree(files).Keys) && Snapshot(AsTree(files)) == files
  {
    hide Text, Components;
    var t := AsTree(files);
    forall k: Name
      ensures k in Snapshot(t) <==> k in files
      ensures k in files ==> Snapshot(t)[k] == files[k]
    {
      JoinSplits(k);
    }
  }

  /** Paths enumerated name by name. */
  function Listing(names: seq<Name>): seq<Path> {
    seq(|names|, i requires 0 <= i < |names| => Components(names[i]))
  }

  lemma ListingLists(files: Files, names: seq<Name>)
    requires multiset(names) == multiset(files.Keys)
    ensures multiset(Listing(names)) == multiset(AsTree(files).Keys) && [] !in AsTree(files)
  {
    var t, ps := AsTree(files), Listing(names);
    Ordering.Enumerates(names, files.Keys);
    ListingDistinct(names);
    forall p: Path
      ensures p in ps <==> p in t
    {
      ListedPath(files, names, p);
    }
    hide AsTree, Listing;
    Ordering.DistinctEnumerates(ps);
    assert (set p | p in ps) == t.Keys;
  }

  lemma ListingDistinct(names: seq<Name>)
    requires Ordering.Distinct(names)
    ensures Ordering.Distinct(Listing(names))
  {
    hide Text, Components;
    var ps := Listing(names);
    forall i, j | 0 <= i < j < |ps|
      ensures ps[i] != ps[j]
    {
      JoinSplits(names[i]);
      JoinSplits(names[j]);
    }
  }

  lemma ListedPath(files: Files, names: seq<Name>, p: Path)
    requires forall k :: k in names <==> k in files
    ensures p in Listing(names) <==> p in AsTree(files)
  {
    hide Text, Components;
    var t, ps := AsTree(files), Listing(names);
    if p in t {
      assert Text(p) in names;
      var i :| 0 <= i < |names| && names[i] == Text(p);
      assert ps[i] == p;
    }
    if p in ps {
      var i :| 0 <= i < |ps| && ps[i] == p;
      assert names[i] in names;
    }
  }

  /** One more name in an enumeration, unless it is there already. */
  function Including(names: seq<Name>, k: Name): seq<Name> {
    if k in names then names else names + [k]
  }

  lemma IncludingLists(names: seq<Name>, files: Files, k: Name, raw: Raw)
    requires multiset(names) == multiset(files.Keys)
    ensures multiset(Including(names, k)) == multiset(files[k := raw].Keys)
  {
    Ordering.Enumerates(names, files.Keys);
    assert files[k := raw].Keys == files.Keys + {k};
    if k in names {
      assert files.Keys + {k} == files.Keys;
    }
  }

  /******* Publication *******/

  class EvidenceRoot {
    var destination: Option<Files>

    constructor ()
      ensures destination == None
    {
      destination := None;
    }

    /** Build a complete set as a tree and read the tree back. */
    method BuildAndRead(files: Files, names: seq<Name>) returns (sealed: Option<Files>)
      requires multiset(names) == multiset(files.Keys)
      ensures sealed == if NonNesting(AsTree(files).Keys) then Some(files) else None
    {
      ListingLists(files, names);
      SnapshotOfTree(files);
      hide AsTree, Snapshot, Listing, NonNesting, Needed;
      var tree := new CandidateTree();
      var built := tree.Build(AsTree(files), Listing(names));
      return if built then Some(Snapshot(tree.files)) else None;
    }

    /** Derive the complete set, build it as a tree, read it back and validate it. */
    method Seal(e: Env, staged: Files, id: Identity, names: seq<Name>) returns (sealed: Option<Files>)
      requires EnvOk(e) && multiset(names) == multiset(staged.Keys)
      ensures sealed.Some? <==> Sealable(e, staged, id)
      ensures sealed.Some? ==> sealed.value == Complete(e, staged, ManifestFor(e, staged, id)) && Accepted(e, sealed.value)
    {
      hide EnvOk, Publishable, Accepted, AsTree, NonNesting, Index, ManifestFor;
      var manifest := MakeManifest(e, staged, id, names);
      if e.project(staged).None? || manifest.None? {
        return None;
      }
      var bound := WithManifest(e, staged, manifest.value);
      IncludingLists(names, staged, MANIFEST, e.encode(manifest.value));
      var sums := ChecksumBytes(e.hash, bound, Including(names, MANIFEST));
      var files := bound[SUMS := sums];
      IncludingLists(Including(names, MANIFEST), bound, SUMS, sums);
      assert files == Complete(e, staged, ManifestFor(e, staged, id));
      PublisherAgreesWithValidator(e, staged, id);
      sealed := BuildAndRead(files, Including(Including(names, MANIFEST), SUMS));
      if sealed.Some? {
        var valid := ValidateComplete(e, sealed.value);
        if valid.None? {
          sealed := None;
        }
      }
    }

    /**
     `names` lists the staged files in some order. `rival` is what another publisher renames into
     place after this call has found the destination absent.
     */
    method Publish(e: Env, staged: Files, id: Identity, names: seq<Name>, rival: Option<Files>) returns (ok: bool)
      requires EnvOk(e) && multiset(names) == multiset(staged.Keys)
      modifies this
      ensures ok <==> old(destination).None? && rival.None? && Sealable(e, staged, id)
      ensures destination ==
        if old(destination).Some? then old(destination)
        else if ok then Some(Complete(e, staged, ManifestFor(e, staged, id)))
        else rival
      ensures ok ==> Accepted(e, destination.value) && BoundTo(e, destination.value, id)
    {
      hide EnvOk, Sealable, Accepted, Complete, ManifestFor, BoundTo;
      if destination.Some? {
        return false;
      }
      destination := rival;
      var sealed := Seal(e, staged, id, names);
      if sealed.None? || destination.Some? {
        return false;
      }
      destination := sealed;
      PublishedBinding(e, staged, id);
      ok := ValidatePublished(e, sealed.value, id);
    }
  }

  /** What a caller can check before publishing, the destination apart. */
  ghost predicate Sealable(e: Env, staged: Files, id: Identity) {
    && e.project(staged).Some?
    && (TREE_KEY in id.projection ==> id.projection[TREE_KEY] == id.tree)
    && Publishable(e, staged, id)
    && NonNesting(AsTree(Complete(e, staged, ManifestFor(e, staged, id))).Keys)
  }

  /** The published set is the caller's: head, source tree and projection. */
  ghost predicate BoundTo(e: Env, files: Files, id: Identity) {
    && MANIFEST in files && e.decode(files[MANIFEST]).Some?
    && var m := e.decode(files[MANIFEST]).value;
    m.head == id.head && m.tree == id.tree && m.projection == id.projection[TREE_KEY := id.tree]
  }

  /** Validate a published set against the identity it was published under. */
  method ValidatePublished(e: Env, files: Files, id: Identity) returns (ok: bool)
    requires EnvOk(e)
    ensures ok <==> Accepted(e, files) && BoundTo(e, files, id)
  {
    var m := ValidateComplete(e, files);
    if m.None? {
      return false;
    }
    ok := m.value.head == id.head && m.value.tree == id.tree
      && m.value.projection == id.projection[TREE_KEY := id.tree];
  }

  lemma PublishedBinding(e: Env, staged: Files, id: Identity)
    requires EnvOk(e)
    ensures BoundTo(e, Complete(e, staged, ManifestFor(e, staged, id)), id)
  {
    CompleteHas(e, staged, ManifestFor(e, staged, id));
  }
}
