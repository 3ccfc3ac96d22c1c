/**
 Evidence sets: the publisher derives a manifest and a checksum index from the payloads; the
 validator accepts a complete set. The layout validator and the text scan are given functions.
 */
module EvidenceSet {
  import opened Basics
  import Ordering
  import opened EvidenceTree
  import opened Checksums

  const MANIFEST: Name := "manifest.json"
  const SUMS: Name := "SHA256SUMS"
  const TREE_KEY: string := "source_tree_sha256"
  const METADATA_KEYS: set<string> := {"run_id", "attempt", "generated_at_utc"}

  type Projection = map<string, string>

  datatype Item = Item(path: Name, sha256: string, size: int, mode: string)

  datatype Manifest = Manifest(
    schema: string, head: string, tree: string, projection: Projection, semantic: string,
    metadata: map<string, string>, directoryMode: string, files: seq<Item>, payloadSha: string)

  /** Hashing, canonical JSON, the layout validator, the text scan and the semantic digest. */
  datatype Env = Env(
    hash: Hash, encode: Manifest -> Raw, decode: Raw -> Option<Manifest>, project: Files -> Option<Projection>,
    scan: (Name, Raw) -> bool, semantic: Projection -> string, schema: string)

  /** The strict reader takes canonical JSON and nothing else. */
  ghost predicate EnvOk(e: Env) {
    && HashOk(e.hash) && (forall m :: e.decode(e.encode(m)) == Some(m))
    && (forall r :: e.decode(r).Some? ==> e.encode(e.decode(r).value) == r)
  }

  /******* What the validator requires *******/

  predicate Hex40(s: string) { |s| == 40 && forall i | 0 <= i < |s| :: Hex(s[i]) }

  predicate Relative(k: Name) {
    (k == "" || k[0] != '/') && ".." !in Components(k)
  }

  function PayloadSha(e: Env, m: Manifest): string {
    e.hash(e.encode(m.(payloadSha := "")))
  }

  /** The manifest's own fields, and its projection against the one the layout gives. */
  predicate Bound(e: Env, m: Manifest, expected: Projection) {
    && m.schema == e.schema && m.directoryMode == "0500" && Hex40(m.head) && Hex64(m.tree)
    && m.semantic == e.semantic(m.projection) && m.metadata.Keys == METADATA_KEYS && m.payloadSha == PayloadSha(e, m)
    && TREE_KEY in m.projection && m.projection[TREE_KEY] == m.tree && m.projection - {TREE_KEY} == expected
  }

  function Payloads(leaves: Files): Files { leaves - {MANIFEST, SUMS} }

  predicate ItemOk(e: Env, item: Item, leaves: Files) {
    && Relative(item.path) && item.mode == "0400" && item.path in leaves
    && item.sha256 == e.hash(leaves[item.path]) && item.size == |leaves[item.path]|
    && e.scan(item.path, leaves[item.path])
  }

  function Paths(items: seq<Item>): seq<Name> {
    seq(|items|, i requires 0 <= i < |items| => items[i].path)
  }

  /** Each payload is listed exactly once, with its digest and size. */
  ghost predicate FilesOk(e: Env, items: seq<Item>, leaves: Files) {
    && Ordering.Distinct(Paths(items)) && (forall k :: k in Paths(items) <==> k in Payloads(leaves))
    && forall i | 0 <= i < |items| :: ItemOk(e, items[i], leaves)
  }

  ghost predicate Accepted(e: Env, leaves: Files) {
    && MANIFEST in leaves && SUMS in leaves && e.decode(leaves[MANIFEST]).Some? && e.project(leaves).Some?
    && Bound(e, e.decode(leaves[MANIFEST]).value, e.project(leaves).value)
    && FilesOk(e, e.decode(leaves[MANIFEST]).value.files, leaves)
    && IndexOk(e.hash, leaves - {SUMS}, leaves[SUMS])
  }

  /******* The validator *******/

  predicate Shaped(item: Item) {
    Relative(item.path) && item.mode == "0400" && Hex64(item.sha256) && item.size >= 0
  }

  /** First pass: every entry well shaped, no path twice. */
  method ListItems(items: seq<Item>) returns (listed: Option<set<Name>>)
    ensures listed.Some? <==> Ordering.Distinct(Paths(items)) && forall i | 0 <= i < |items| :: Shaped(items[i])
    ensures listed.Some? ==> listed.value == set k | k in Paths(items)
  {
    hide Shaped;
    var seen: set<Name> := {};
    for i := 0 to |items|
      invariant seen == (set k | k in Paths(items)[..i]) && Ordering.Distinct(Paths(items)[..i])
      invariant forall j | 0 <= j < i :: Shaped(items[j])
    {
      assert Paths(items)[..i + 1] == Paths(items)[..i] + [items[i].path];
      if !Shaped(items[i]) {
        return None;
      }
      if items[i].path in seen {
        ghost var j :| 0 <= j < i && Paths(items)[..i][j] == items[i].path;
        assert Paths(items)[j] == Paths(items)[i];
        return None;
      }
      seen := seen + {items[i].path};
    }
    assert Paths(items)[..|items|] == Paths(items);
    return Some(seen);
  }

  method CheckFiles(e: Env, items: seq<Item>, leaves: Files) returns (ok: bool)
    requires HashOk(e.hash)
    ensures ok <==> FilesOk(e, items, leaves)
  {
    OkIsShaped(e, items, leaves);
    var listed := ListItems(items);
    hide Shaped, Relative, Ordering.Distinct;
    if listed.None? || listed.value != Payloads(leaves).Keys {
      return false;
    }
    assert forall k :: k in Paths(items) <==> k in listed.value;
    for i := 0 to |items|
      invariant forall j | 0 <= j < i :: ItemOk(e, items[j], leaves)
    {
      assert Paths(items)[i] in Paths(items);
      var item := items[i];
      if item.sha256 != e.hash(leaves[item.path]) || item.size != |leaves[item.path]|
        || !e.scan(item.path, leaves[item.path]) {
        return false;
      }
      ShapedIsOk(e, item, leaves);
    }
    return true;
  }

  lemma OkIsShaped(e: Env, items: seq<Item>, leaves: Files)
    requires HashOk(e.hash)
    ensures forall i | 0 <= i < |items| :: ItemOk(e, items[i], leaves) ==> Shaped(items[i])
    ensures FilesOk(e, items, leaves) ==> (set k | k in Paths(items)) == Payloads(leaves).Keys
  {
    forall i | 0 <= i < |items|
      ensures ItemOk(e, items[i], leaves) ==> Shaped(items[i])
    {
      if ItemOk(e, items[i], leaves) { assert Hex64(e.hash(leaves[items[i].path])); }
    }
  }

  lemma ShapedIsOk(e: Env, item: Item, leaves: Files)
    requires Shaped(item) && item.path in leaves && item.sha256 == e.hash(leaves[item.path])
    requires item.size == |leaves[item.path]| && e.scan(item.path, leaves[item.path])
    ensures ItemOk(e, item, leaves)
  {
  }

  /** The complete validator accepts exactly the sets described by `Accepted`. */
  method ValidateComplete(e: Env, leaves: Files) returns (r: Option<Manifest>)
    requires EnvOk(e)
    ensures r.Some? <==> Accepted(e, leaves)
    ensures r.Some? ==> r == e.decode(leaves[MANIFEST])
  {
    hide Bound, FilesOk, IndexOk;
    if MANIFEST !in leaves || SUMS !in leaves {
      return None;
    }
    var expected, manifest := e.project(leaves), e.decode(leaves[MANIFEST]);
    if expected.None? || manifest.None? || !Bound(e, manifest.value, expected.value) {
      return None;
    }
    var listed := CheckFiles(e, manifest.value.files, leaves);
    if !listed {
      return None;
    }
    var indexed := CheckIndex(e.hash, leaves - {SUMS}, leaves[SUMS]);
    if !indexed {
      return None;
    }
    return manifest;
  }

  /******* The publisher *******/

  function ItemFor(e: Env, payloads: Files, k: Name): Item
    requires k in payloads
  {
    Item(k, e.hash(payloads[k]), |payloads[k]|, "0400")
  }

  function ItemsFor(e: Env, payloads: Files, ks: seq<Name>): seq<Item>
    requires forall k | k in ks :: k in payloads
  {
    seq(|ks|, i requires 0 <= i < |ks| => (assert ks[i] in ks; ItemFor(e, payloads, ks[i])))
  }

  /** What the caller supplies beside the payloads. */
  datatype Identity = Identity(head: string, tree: string, projection: Projection, metadata: map<string, string>)

  function Unsealed(e: Env, payloads: Files, id: Identity, ks: seq<Name>): Manifest
    requires forall k | k in ks :: k in payloads
  {
    var bound := id.projection[TREE_KEY := id.tree];
    Manifest(e.schema, id.head, id.tree, bound, e.semantic(bound), id.metadata, "0500", ItemsFor(e, payloads, ks), "")
  }

  ghost function ManifestFor(e: Env, payloads: Files, id: Identity): Manifest {
    SortedLists(payloads.Keys);
    var m := Unsealed(e, payloads, id, Sorted(payloads.Keys));
    m.(payloadSha := PayloadSha(e, m))
  }

  /** None when the projection is already bound to another source tree. `order` lists the payload names. */
  method MakeManifest(e: Env, payloads: Files, id: Identity, order: seq<Name>) returns (m: Option<Manifest>)
    requires multiset(order) == multiset(payloads.Keys)
    ensures m.None? <==> TREE_KEY in id.projection && id.projection[TREE_KEY] != id.tree
    ensures m.Some? ==> m.value == ManifestFor(e, payloads, id)
  {
    if TREE_KEY in id.projection && id.projection[TREE_KEY] != id.tree {
      return None;
    }
    var ks := Ordering.Sort(ByName(), order);
    SortedIs(payloads.Keys, order, ks);
    var unsealed := Unsealed(e, payloads, id, ks);
    return Some(unsealed.(payloadSha := PayloadSha(e, unsealed)));
  }

  function WithManifest(e: Env, payloads: Files, m: Manifest): Files {
    payloads[MANIFEST := e.encode(m)]
  }

  /** The whole set as published. */
  ghost function Complete(e: Env, payloads: Files, m: Manifest): Files {
    WithManifest(e, payloads, m)[SUMS := Index(e.hash, WithManifest(e, payloads, m))]
  }

  /** What a caller can check before publishing. */
  ghost predicate Publishable(e: Env, payloads: Files, id: Identity) {
    && MANIFEST !in payloads && SUMS !in payloads
    && (forall k | k in payloads :: Safe(k)) && PathsPass(e, payloads)
    && Hex40(id.head) && Hex64(id.tree) && id.metadata.Keys == METADATA_KEYS
    && e.project(Complete(e, payloads, ManifestFor(e, payloads, id))) == Some(id.projection - {TREE_KEY})
  }

  /******* Publisher and validator agree *******/

  lemma {:induction false} OneComponent(k: Name)
    requires forall i | 0 <= i < |k| :: k[i] != '/'
    ensures Components(k) == [k]
  {
    if k != "" {
      OneComponent(k[1..]);
      assert [k[0]] + k[1..] == k;
    }
  }

  lemma PlainNameSafe(k: Name)
    requires k != "" && forall i | 0 <= i < |k| :: NameChar(k[i])
    ensures Safe(k)
  {
    OneComponent(k);
  }

  lemma ManifestNameSafe()
    ensures Safe(MANIFEST)
  {
    hide Safe, Components;
    PlainNameSafe(MANIFEST);
  }

  lemma PathsFor(e: Env, payloads: Files, ks: seq<Name>)
    requires forall k | k in ks :: k in payloads
    ensures Paths(ItemsFor(e, payloads, ks)) == ks
  {
  }

  /** Every path passes: relative, and its content scanned. */
  predicate PathsPass(e: Env, payloads: Files) {
    forall k | k in payloads :: Relative(k) && e.scan(k, payloads[k])
  }

  lemma ItemAgrees(e: Env, payloads: Files, leaves: Files, k: Name)
    requires k in payloads && k in leaves && leaves[k] == payloads[k]
    ensures ItemOk(e, ItemFor(e, payloads, k), leaves) <==> Relative(k) && e.scan(k, payloads[k])
  {
    hide Relative;
  }

  /** When the leaves hold the payloads unchanged, the publisher's entries are right if and only if every path passes. */
  lemma ItemsPass(e: Env, payloads: Files, leaves: Files, ks: seq<Name>)
    requires forall k :: k in ks <==> k in payloads
    requires forall k | k in payloads :: k in leaves && leaves[k] == payloads[k]
    ensures (forall i | 0 <= i < |ks| :: ItemOk(e, ItemsFor(e, payloads, ks)[i], leaves)) <==> PathsPass(e, payloads)
  {
    hide Relative, ItemOk;
    var items := ItemsFor(e, payloads, ks);
    forall i | 0 <= i < |ks|
      ensures ItemOk(e, items[i], leaves) <==> Relative(ks[i]) && e.scan(ks[i], payloads[ks[i]])
    {
      assert ks[i] in ks;
      ItemAgrees(e, payloads, leaves, ks[i]);
    }
    if forall i | 0 <= i < |ks| :: ItemOk(e, items[i], leaves) {
      forall k | k in payloads
        ensures Relative(k) && e.scan(k, payloads[k])
      {
        assert k in ks;
        var i :| 0 <= i < |ks| && ks[i] == k;
        assert ItemOk(e, items[i], leaves);
      }
    }
  }

  lemma PayloadsKept(payloads: Files, leaves: Files)
    requires Payloads(leaves) == Payloads(payloads)
    ensures Payloads(leaves).Keys == payloads.Keys <==> MANIFEST !in payloads && SUMS !in payloads
    ensures MANIFEST !in payloads && SUMS !in payloads ==>
      forall k | k in payloads :: k in leaves && leaves[k] == payloads[k]
  {
    if MANIFEST !in payloads && SUMS !in payloads {
      assert Payloads(payloads) == payloads;
      forall k | k in payloads
        ensures k in leaves && leaves[k] == payloads[k]
      {
        assert Payloads(leaves)[k] == payloads[k];
      }
    } else {
      assert MANIFEST !in Payloads(leaves).Keys && SUMS !in Payloads(leaves).Keys;
    }
  }

  /** The publisher's file list satisfies the validator exactly when no name is reserved and every path passes. */
  lemma ItemsAgree(e: Env, payloads: Files, leaves: Files, ks: seq<Name>)
    requires Ordering.Distinct(ks) && (forall k :: k in ks <==> k in payloads) && Payloads(leaves) == Payloads(payloads)
    ensures FilesOk(e, ItemsFor(e, payloads, ks), leaves) <==>
      MANIFEST !in payloads && SUMS !in payloads && PathsPass(e, payloads)
  {
    PathsFor(e, payloads, ks);
    PayloadsKept(payloads, leaves);
    hide Ordering.Distinct, Payloads, ItemOk, Relative, PathsPass;
    var items := ItemsFor(e, payloads, ks);
    assert (forall k :: k in ks <==> k in Payloads(leaves)) <==> Payloads(leaves).Keys == payloads.Keys;
    if MANIFEST !in payloads && SUMS !in payloads { ItemsPass(e, payloads, leaves, ks); }
    hide ItemsFor, Paths;
  }

  lemma Rebound(projection: Projection, tree: string)
    ensures projection[TREE_KEY := tree] - {TREE_KEY} == projection - {TREE_KEY}
  {
  }

  /** The derived manifest is bound exactly when the identity is well formed and the layout gives its projection. */
  lemma BindingAgrees(e: Env, payloads: Files, id: Identity, expected: Projection)
    requires TREE_KEY in id.projection ==> id.projection[TREE_KEY] == id.tree
    ensures Bound(e, ManifestFor(e, payloads, id), expected) <==>
      Hex40(id.head) && Hex64(id.tree) && id.metadata.Keys == METADATA_KEYS && expected == id.projection - {TREE_KEY}
  {
    SortedLists(payloads.Keys);
    hide Sorted, Ordering.Distinct, Hex40, Hex64, ItemsFor;
    var m := ManifestFor(e, payloads, id);
    assert m.(payloadSha := "") == Unsealed(e, payloads, id, Sorted(payloads.Keys));
    assert m.payloadSha == PayloadSha(e, m);
    Rebound(id.projection, id.tree);
  }

  lemma SafeWithManifest(payloads: Files, raw: Raw)
    requires Safe(MANIFEST)
    ensures (forall k | k in payloads[MANIFEST := raw] :: Safe(k)) <==> (forall k | k in payloads :: Safe(k))
  {
    hide Safe;
    assert forall k | k in payloads :: k in payloads[MANIFEST := raw];
  }

  lemma IndexAgrees(e: Env, payloads: Files, m: Manifest)
    requires SUMS !in payloads
    ensures IndexOk(e.hash, Complete(e, payloads, m) - {SUMS}, Complete(e, payloads, m)[SUMS]) <==>
      forall k | k in payloads :: Safe(k)
  {
    var files := WithManifest(e, payloads, m);
    hide Safe, Index;
    assert Complete(e, payloads, m) - {SUMS} == files;
    ManifestNameSafe();
    SafeWithManifest(payloads, e.encode(m));
  }

  /** What is published passes the complete validator exactly when it was publishable. */
  lemma PublisherAgreesWithValidator(e: Env, payloads: Files, id: Identity)
    requires EnvOk(e) && (TREE_KEY in id.projection ==> id.projection[TREE_KEY] == id.tree)
    ensures Accepted(e, Complete(e, payloads, ManifestFor(e, payloads, id))) <==> Publishable(e, payloads, id)
  {
    hide EnvOk, Bound, FilesOk, IndexOk, PathsPass, Safe, Hex40, Hex64, ManifestFor, Complete, Accepted;
    var m := ManifestFor(e, payloads, id);
    var leaves := Complete(e, payloads, m);
    CompleteHas(e, payloads, m);
    FilesAgree(e, payloads, id, leaves);
    if e.project(leaves).Some? { BindingAgrees(e, payloads, id, e.project(leaves).value); }
    if SUMS !in payloads { IndexAgrees(e, payloads, m); }
    AcceptedUnfolds(e, leaves, m);
  }

  lemma AcceptedUnfolds(e: Env, leaves: Files, m: Manifest)
    requires MANIFEST in leaves && SUMS in leaves && e.decode(leaves[MANIFEST]) == Some(m)
    ensures Accepted(e, leaves) <==>
      && e.project(leaves).Some? && Bound(e, m, e.project(leaves).value)
      && FilesOk(e, m.files, leaves) && IndexOk(e.hash, leaves - {SUMS}, leaves[SUMS])
  {
    hide Bound, FilesOk, IndexOk;
  }

  lemma FilesAgree(e: Env, payloads: Files, id: Identity, leaves: Files)
    requires Payloads(leaves) == Payloads(payloads)
    ensures FilesOk(e, ManifestFor(e, payloads, id).files, leaves) <==>
      MANIFEST !in payloads && SUMS !in payloads && PathsPass(e, payloads)
  {
    hide FilesOk, PathsPass, Payloads;
    SortedLists(payloads.Keys);
    assert ManifestFor(e, payloads, id).files == ItemsFor(e, payloads, Sorted(payloads.Keys));
    hide Sorted, Ordering.Distinct, ItemsFor, ManifestFor;
    ItemsAgree(e, payloads, leaves, Sorted(payloads.Keys));
  }

  lemma CompleteHas(e: Env, payloads: Files, m: Manifest)
    requires EnvOk(e)
    ensures MANIFEST in Complete(e, payloads, m) && SUMS in Complete(e, payloads, m)
    ensures e.decode(Complete(e, payloads, m)[MANIFEST]) == Some(m)
    ensures Payloads(Complete(e, payloads, m)) == Payloads(payloads)
  {
    hide Index;
  }

  /******* What acceptance pins down *******/

  lemma {:induction false} SameDigests(hash: Hash, f: Files, g: Files, ks: seq<Name>)
    requires forall k | k in ks :: k in f && k in g
    requires EntriesOf(hash, f, ks) == EntriesOf(hash, g, ks)
    ensures forall k | k in ks :: hash(f[k]) == hash(g[k])
  {
    if ks != [] {
      var x, y := EntriesOf(hash, f, ks), EntriesOf(hash, g, ks);
      assert x[0] == y[0] && x[1..] == EntriesOf(hash, f, ks[1..]) && y[1..] == EntriesOf(hash, g, ks[1..]);
      SameDigests(hash, f, g, ks[1..]);
      assert ks == [ks[0]] + ks[1..];
    }
  }

  /**
   The checksum index alone determines an accepted set, byte for byte, unless two files of the same
   name in the two sets are a collision of the hash.
   */
  lemma IndexDeterminesSet(e: Env, a: Files, b: Files)
    requires EnvOk(e) && Accepted(e, a) && Accepted(e, b) && a[SUMS] == b[SUMS]
    requires forall k | k in a && k in b && e.hash(a[k]) == e.hash(b[k]) :: a[k] == b[k]
    ensures a == b
  {
    var f, g := a - {SUMS}, b - {SUMS};
    var ks := Sorted(f.Keys);
    SortedLists(f.Keys);
    SortedLists(g.Keys);
    IndexReads(e.hash, f, a[SUMS], ks);
    IndexReads(e.hash, g, b[SUMS], Sorted(g.Keys));
    assert ks == Sorted(g.Keys);
    SameDigests(e.hash, f, g, ks);
    SameFiles(a, b, ks);
  }

  lemma SameFiles(a: Files, b: Files, ks: seq<Name>)
    requires SUMS in a && SUMS in b && a[SUMS] == b[SUMS]
    requires forall k :: k in ks <==> k in a - {SUMS}
    requires forall k :: k in ks <==> k in b - {SUMS}
    requires forall k | k in ks :: a[k] == b[k]
    ensures a == b
  {
    forall k: Name
      ensures k in a <==> k in b
      ensures k in a ==> a[k] == b[k]
    {
      assert k != SUMS ==> (k in a <==> k in ks) && (k in b <==> k in ks);
    }
  }
}
