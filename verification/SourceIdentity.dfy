/**
 The source identity of a commit, over a commit graph. A commit may carry a portable receipt naming
 an earlier commit's identity. The receipt stays out of the closure only when it is bound: the named
 commit is an ancestor whose own identity is exactly the named one and whose closure is this one.

 SHA-256 is the free constructor `Sha256`; a digest read out of a receipt need not be one.
 */
module SourceIdentity {
  import opened Basics
  import opened SourceClosure
  import opened TreeListing

  type Name = string

  datatype Digest = Sha256(preimage: Bytes) | Unmatched(hex: string)

  datatype Source = Source(policy: Bytes, schema: string, closure: Digest, commit: Name, tree: Name)

  /** `entries` is None when the tree is refused: a link, a path that is not canonical, a missing blob. */
  datatype Commit = Commit(tree: Name, entries: Option<seq<TreeEntry>>, parents: set<Name>, depth: nat)

  type Graph = map<Name, Commit>

  /** The digest of the exclusion policy, the output validators and the portable receipt validator. */
  datatype Policy = Policy(
    sha256: Bytes, receiptPath: Bytes, isOutput: TreeEntry -> bool, decode: Bytes -> Option<Source>)

  const SCHEMA: string := "trading-agent-source-closure-v1"
  const DOMAIN: string := "trading-agent-source-closure/v1"

  function Header(p: Policy): Bytes {
    seq(|DOMAIN|, i requires 0 <= i < |DOMAIN| => (DOMAIN[i] as int % 0x100) as Byte) + [0] + p.sha256
  }

  /******* Entries, receipts and closures *******/

  predicate IsReceipt(p: Policy, e: TreeEntry) {
    e.path == p.receiptPath && !e.executable && p.decode(e.blob).Some?
  }

  predicate Excluded(p: Policy, e: TreeEntry) {
    if e.path == p.receiptPath then IsReceipt(p, e) else p.isOutput(e)
  }

  function Outputs(p: Policy): TreeEntry -> bool {
    (e: TreeEntry) => Excluded(p, e)
  }

  function OutputsButReceipt(p: Policy): TreeEntry -> bool {
    (e: TreeEntry) => e.path != p.receiptPath && Excluded(p, e)
  }

  /** The entries a closure digest covers, with or without the portable receipt. */
  function Covered(p: Policy, es: seq<TreeEntry>, withReceipt: bool): seq<TreeEntry> {
    Included(es, if withReceipt then OutputsButReceipt(p) else Outputs(p))
  }

  function ClosureOf(p: Policy, es: seq<TreeEntry>, withReceipt: bool): Digest {
    Sha256(Header(p) + Stream(Covered(p, es, withReceipt)))
  }

  /** The portable receipt: the first regular, non-executable entry at the receipt's path. */
  function Portable(p: Policy, es: seq<TreeEntry>): Option<Source> {
    if es == [] then None
    else if es[0].path == p.receiptPath && !es[0].executable then p.decode(es[0].blob)
    else Portable(p, es[1..])
  }

  /******* Commit graphs *******/

  /** What the tree reader guarantees: paths strictly ascending. */
  predicate Canonical(es: seq<TreeEntry>) {
    forall i, j | 0 <= i < j < |es| :: Before(es[i].path, es[j].path)
  }

  /** A tree's entries: what the listing reader and the blob reader return, side by side. */
  function Join(listed: seq<Listed>, blobs: seq<Bytes>): seq<TreeEntry>
    requires |listed| == |blobs|
  {
    seq(|listed|, i requires 0 <= i < |listed| => TreeEntry(listed[i].path, listed[i].executable, blobs[i]))
  }

  lemma ReadTreeIsCanonical(raw: Bytes, rule: PathRule, listed: seq<Listed>, blobs: seq<Bytes>)
    requires Parsed(raw, rule) == Some(listed) && |listed| == |blobs|
    ensures Canonical(Join(listed, blobs))
  {
    ParsedExactly(raw, listed, rule);
    hide Before;
  }

  predicate TreeOk(p: Policy, c: Name, es: seq<TreeEntry>) {
    && Canonical(es)
    && (forall i | 0 <= i < |es| :: Encodable(es[i]))
    // a commit's name is a hash over its tree, so the tree cannot hold that name
    && (Portable(p, es).Some? ==> Portable(p, es).value.commit != c)
  }

  ghost predicate GraphOk(p: Policy, g: Graph) {
    forall c | c in g ::
      && (forall q | q in g[c].parents && q in g :: g[q].depth < g[c].depth)
      && (g[c].entries.Some? ==> TreeOk(p, c, g[c].entries.value))
  }

  /** Reflexive ancestry, as `git merge-base --is-ancestor` decides it. */
  predicate Ancestor(p: Policy, g: Graph, a: Name, c: Name)
    requires GraphOk(p, g) && c in g
    decreases g[c].depth
  {
    a == c || exists q | q in g[c].parents && q in g :: Ancestor(p, g, a, q)
  }

  lemma {:induction false} AncestorShallower(p: Policy, g: Graph, a: Name, c: Name)
    requires GraphOk(p, g) && c in g && Ancestor(p, g, a, c)
    ensures a in g && (a == c || g[a].depth < g[c].depth)
    decreases g[c].depth
  {
    if a != c {
      var q :| q in g[c].parents && q in g && Ancestor(p, g, a, q);
      AncestorShallower(p, g, a, q);
    }
  }

  lemma {:induction false} AncestorTransitive(p: Policy, g: Graph, a: Name, b: Name, c: Name)
    requires GraphOk(p, g) && c in g && b in g && Ancestor(p, g, a, b) && Ancestor(p, g, b, c)
    ensures Ancestor(p, g, a, c)
    decreases g[c].depth
  {
    if b != c {
      var q :| q in g[c].parents && q in g && Ancestor(p, g, b, q);
      AncestorTransitive(p, g, a, b, q);
    }
  }

  /******* The identity *******/

  /** The receipt `s` in tree `es` of commit `c` is bound. */
  ghost predicate BoundTo(p: Policy, g: Graph, c: Name, es: seq<TreeEntry>, s: Source)
    requires GraphOk(p, g) && c in g && g[c].entries == Some(es) && Portable(p, es) == Some(s)
    decreases g[c].depth, 0
  {
    && Ancestor(p, g, s.commit, c)
    && (AncestorShallower(p, g, s.commit, c); Identity(p, g, s.commit) == Some(s))
    && s.schema == SCHEMA && s.policy == p.sha256
    && s.closure == ClosureOf(p, es, false)
  }

  /** The tree carries a portable receipt that is not bound. */
  ghost predicate Unbound(p: Policy, g: Graph, c: Name, es: seq<TreeEntry>)
    requires GraphOk(p, g) && c in g && g[c].entries == Some(es)
    decreases g[c].depth, 1
  {
    Portable(p, es).Some? && !BoundTo(p, g, c, es, Portable(p, es).value)
  }

  ghost function Identity(p: Policy, g: Graph, c: Name): Option<Source>
    requires GraphOk(p, g) && c in g
    decreases g[c].depth, 2
  {
    if g[c].entries.None? then None
    else
      var es := g[c].entries.value;
      Some(Source(p.sha256, SCHEMA, ClosureOf(p, es, Unbound(p, g, c, es)), c, g[c].tree))
  }

  /** Scan the entries in order for the portable receipt, stopping at the first candidate. */
  method FindPortable(p: Policy, es: seq<TreeEntry>) returns (s: Option<Source>)
    ensures s == Portable(p, es)
  {
    for i := 0 to |es|
      invariant Portable(p, es) == Portable(p, es[i..])
    {
      if es[i].path == p.receiptPath && !es[i].executable {
        return p.decode(es[i].blob);
      }
      assert es[i..][1..] == es[i + 1..];
    }
    return None;
  }

  /** The recursive computation: one closure, the named ancestor's identity, perhaps a second closure. */
  method CanonicalSourceIdentity(p: Policy, g: Graph, c: Name) returns (id: Option<Source>)
    requires GraphOk(p, g) && c in g
    ensures id == Identity(p, g, c)
    decreases g[c].depth
  {
    if g[c].entries.None? {
      return None;
    }
    hide Portable, Included, Stream, Excluded, Ancestor, Header;
    var es := g[c].entries.value;
    var preimage := ClosurePreimage(Header(p), es, Outputs(p));
    var s := FindPortable(p, es);
    var bound := false;
    if s.Some? && Ancestor(p, g, s.value.commit, c) {
      AncestorShallower(p, g, s.value.commit, c);
      var named := CanonicalSourceIdentity(p, g, s.value.commit);
      bound := named == s;
      assert BoundTo(p, g, c, es, s.value) ==
        (bound && s.value.schema == SCHEMA && s.value.policy == p.sha256 && s.value.closure == Sha256(preimage));
    } else if s.Some? {
      assert !BoundTo(p, g, c, es, s.value);
    }
    if s.Some? && (!bound || s.value.schema != SCHEMA || s.value.policy != p.sha256
      || s.value.closure != Sha256(preimage)) {
      preimage := ClosurePreimage(Header(p), es, OutputsButReceipt(p));
    }
    id := Some(Source(p.sha256, SCHEMA, Sha256(preimage), c, g[c].tree));
  }

  /******* Strictly ascending lists are determined by their elements *******/

  lemma FirstIsIn(a: seq<TreeEntry>)
    ensures a == [] || exists e :: e in a
  {
    assert a == [] || a[0] in a;
  }

  lemma {:induction false} CanonicalUnique(a: seq<TreeEntry>, b: seq<TreeEntry>)
    requires Canonical(a) && Canonical(b) && (forall e :: e in a <==> e in b)
    ensures a == b
    decreases |a|
  {
    if a == [] {
      FirstIsIn(b);
    } else {
      assert a[0] in b;
      assert b[0] in a;
      var i :| 0 <= i < |b| && b[i] == a[0];
      var j :| 0 <= j < |a| && a[j] == b[0];
      BeforeTotal(a[0].path, b[0].path);
      assert a[0] == b[0];
      TailElements(a);
      TailElements(b);
      CanonicalUnique(a[1..], b[1..]);
    }
  }

  lemma TailElements(a: seq<TreeEntry>)
    requires a != [] && Canonical(a)
    ensures Canonical(a[1..])
    ensures forall e :: e in a[1..] <==> e in a && e != a[0]
  {
    BeforeTotal(a[0].path, a[0].path);
    assert a == [a[0]] + a[1..];
  }

  lemma {:induction false} IncludedCanonical(es: seq<TreeEntry>, excluded: TreeEntry -> bool)
    requires Canonical(es)
    ensures Canonical(Included(es, excluded))
  {
    if es != [] {
      IncludedCanonical(es[1..], excluded);
      var rest := Included(es[1..], excluded);
      forall j | 0 <= j < |rest|
        ensures Before(es[0].path, rest[j].path)
      {
        assert rest[j] in es[1..];
      }
    }
  }

  /** Two trees that differ only in excluded outputs cover the same entries. */
  lemma SameSourcesSameCover(p: Policy, a: seq<TreeEntry>, b: seq<TreeEntry>)
    requires Canonical(a) && Canonical(b)
    requires forall e :: !Excluded(p, e) ==> (e in a <==> e in b)
    ensures Covered(p, a, false) == Covered(p, b, false)
  {
    IncludedCanonical(a, Outputs(p));
    IncludedCanonical(b, Outputs(p));
    CanonicalUnique(Covered(p, a, false), Covered(p, b, false));
  }

  /******* What binding means *******/

  /** Equal closure digests cover equal entries. */
  lemma ClosureDeterminesCover(p: Policy, a: seq<TreeEntry>, b: seq<TreeEntry>, ra: bool, rb: bool)
    requires forall i | 0 <= i < |a| :: Encodable(a[i])
    requires forall i | 0 <= i < |b| :: Encodable(b[i])
    requires ClosureOf(p, a, ra) == ClosureOf(p, b, rb)
    ensures Covered(p, a, ra) == Covered(p, b, rb)
  {
    PreimageDeterminesContent(Header(p), a, b,
      if ra then OutputsButReceipt(p) else Outputs(p), if rb then OutputsButReceipt(p) else Outputs(p));
  }

  lemma {:induction false} PortableEntry(p: Policy, es: seq<TreeEntry>) returns (e: TreeEntry)
    requires Portable(p, es).Some?
    ensures e in es && IsReceipt(p, e)
  {
    if es[0].path == p.receiptPath && !es[0].executable {
      e := es[0];
    } else {
      e := PortableEntry(p, es[1..]);
    }
  }

  /** A closure that covers its receipt is never the closure of a tree whose receipt is left out. */
  lemma ReceiptTellsApart(p: Policy, a: seq<TreeEntry>, b: seq<TreeEntry>)
    requires Portable(p, a).Some?
    ensures Covered(p, a, true) != Covered(p, b, false)
  {
    var e := PortableEntry(p, a);
    assert e in Covered(p, a, true);
    assert e !in Covered(p, b, false);
  }

  /**
   A receipt is bound exactly when it names the identity of an ancestor that itself carries no
   unbound receipt and covers the same entries.
   */
  lemma BoundIff(p: Policy, g: Graph, c: Name, es: seq<TreeEntry>, s: Source)
    requires GraphOk(p, g) && c in g && g[c].entries == Some(es) && Portable(p, es) == Some(s)
    ensures BoundTo(p, g, c, es, s) <==>
      && Ancestor(p, g, s.commit, c)
      && s.commit in g && g[s.commit].entries.Some?
      && Identity(p, g, s.commit) == Some(s)
      && !Unbound(p, g, s.commit, g[s.commit].entries.value)
      && Covered(p, g[s.commit].entries.value, false) == Covered(p, es, false)
  {
    if Ancestor(p, g, s.commit, c) {
      AncestorShallower(p, g, s.commit, c);
      if Identity(p, g, s.commit) == Some(s) {
        var named := g[s.commit].entries.value;
        var u := Unbound(p, g, s.commit, named);
        if s.closure == ClosureOf(p, es, false) {
          assert ClosureOf(p, named, u) == ClosureOf(p, es, false);
          ClosureDeterminesCover(p, named, es, u, false);
          if u { ReceiptTellsApart(p, named, es); }
        }
      }
    }
  }

  /**
   A descendant of `c` that changes only validated outputs and carries a portable receipt naming
   exactly the identity of `c` has the closure of `c`, provided `c` carries no unbound receipt.
   */
  lemma DescendantKeepsClosure(p: Policy, g: Graph, c: Name, d: Name)
    requires GraphOk(p, g) && c in g && d in g && Ancestor(p, g, c, d)
    requires g[c].entries.Some? && g[d].entries.Some?
    requires !Unbound(p, g, c, g[c].entries.value)
    requires forall e :: !Excluded(p, e) ==> (e in g[c].entries.value <==> e in g[d].entries.value)
    requires Portable(p, g[d].entries.value) == Identity(p, g, c)
    ensures Identity(p, g, d).value.closure == Identity(p, g, c).value.closure
    ensures !Unbound(p, g, d, g[d].entries.value)
  {
    var es, s := g[d].entries.value, Identity(p, g, c).value;
    SameSourcesSameCover(p, g[c].entries.value, es);
    BoundIff(p, g, d, es, s);
  }

  /** Follow bound receipts back to the commit they start from. */
  ghost function Origin(p: Policy, g: Graph, c: Name): Name
    requires GraphOk(p, g) && c in g && g[c].entries.Some?
    decreases g[c].depth
  {
    var es := g[c].entries.value;
    if Portable(p, es).None? || !BoundTo(p, g, c, es, Portable(p, es).value) then c
    else
      var s := Portable(p, es).value;
      BoundIff(p, g, c, es, s);
      AncestorShallower(p, g, s.commit, c);
      Origin(p, g, s.commit)
  }

  /**
   Over any history: a commit without an unbound receipt traces back through its receipts to an
   ancestor that carries no receipt at all, covers the same entries and has the same closure.
   */
  lemma {:induction false} OriginIsReceiptFree(p: Policy, g: Graph, c: Name)
    requires GraphOk(p, g) && c in g && g[c].entries.Some?
    requires !Unbound(p, g, c, g[c].entries.value)
    ensures var o := Origin(p, g, c);
      && o in g && g[o].entries.Some? && Ancestor(p, g, o, c)
      && Portable(p, g[o].entries.value).None?
      && Covered(p, g[o].entries.value, false) == Covered(p, g[c].entries.value, false)
      && Identity(p, g, o).value.closure == Identity(p, g, c).value.closure
    decreases g[c].depth
  {
    var es := g[c].entries.value;
    if Portable(p, es).Some? {
      var s := Portable(p, es).value;
      BoundIff(p, g, c, es, s);
      AncestorShallower(p, g, s.commit, c);
      OriginIsReceiptFree(p, g, s.commit);
      AncestorTransitive(p, g, Origin(p, g, c), s.commit, c);
    }
  }

  /**
   Two commits have the same closure exactly when they cover the same entries and agree on whether
   they carry an unbound receipt.
   */
  lemma ClosureMeansSameSources(p: Policy, g: Graph, c: Name, d: Name)
    requires GraphOk(p, g) && c in g && d in g && g[c].entries.Some? && g[d].entries.Some?
    ensures Identity(p, g, c).value.closure == Identity(p, g, d).value.closure <==>
      (var x, y := g[c].entries.value, g[d].entries.value;
       && Unbound(p, g, c, x) == Unbound(p, g, d, y)
       && Covered(p, x, Unbound(p, g, c, x)) == Covered(p, y, Unbound(p, g, d, y)))
  {
    var x, y := g[c].entries.value, g[d].entries.value;
    var u, v := Unbound(p, g, c, x), Unbound(p, g, d, y);
    if ClosureOf(p, x, u) == ClosureOf(p, y, v) {
      ClosureDeterminesCover(p, x, y, u, v);
      if u && !v { ReceiptTellsApart(p, x, y); }
      if v && !u { ReceiptTellsApart(p, y, x); }
    }
  }
}
