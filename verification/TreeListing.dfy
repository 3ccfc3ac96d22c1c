/**
 The reader of `git ls-tree -rz`: NUL-terminated records of mode, kind, object id and path. It
 accepts regular and executable blobs only, under canonical paths in strictly ascending byte order.
 */
module TreeListing {
  import opened Basics
  import Ordering
  import opened GitBatch
  import opened SourceClosure

  const NUL: Byte := 0
  const TAB: Byte := 0x09

  datatype Listed = Listed(executable: bool, oid: Bytes, path: Bytes)

  /** Which path bytes are canonically normalized UTF-8. */
  type PathRule = Bytes -> bool

  predicate HexOid(oid: Bytes) {
    40 <= |oid| <= 64 && forall i | 0 <= i < |oid| :: 0x30 <= oid[i] <= 0x39 || 0x61 <= oid[i] <= 0x66
  }

  function ByteOrder(): (Byte, Byte) -> bool {
    (x: Byte, y: Byte) => x < y
  }

  predicate Before(a: Bytes, b: Bytes) {
    Ordering.Lex(ByteOrder(), a, b)
  }

  lemma BeforeTotal(a: Bytes, b: Bytes)
    ensures Before(a, b) || Before(b, a) || a == b
    ensures !(Before(a, b) && Before(b, a)) && !Before(a, a)
  {
    Ordering.LexTotal(ByteOrder(), a, b);
    Ordering.LexTotal(ByteOrder(), a, a);
  }

  ghost predicate Ascending(es: seq<Listed>) {
    forall i, j | 0 <= i < j < |es| :: Before(es[i].path, es[j].path)
  }

  /******* One record *******/

  function Metadata(e: Listed): Bytes {
    Mode(e.executable) + [SP] + BLOB + [SP] + e.oid
  }

  function Record(e: Listed): Bytes {
    Metadata(e) + [TAB] + e.path
  }

  predicate Proper(e: Listed, rule: PathRule) {
    HexOid(e.oid) && rule(e.path)
  }

  function ParseMetadata(s: Bytes): Option<(bool, Bytes)> {
    var i := IndexOf(s, SP);
    if i == |s| then None else
    var rest := s[i + 1..];
    var j := IndexOf(rest, SP);
    if j == |rest| then None else
    var mode, kind, oid := s[..i], rest[..j], rest[j + 1..];
    if kind != BLOB || !HexOid(oid) || (mode != Mode(false) && mode != Mode(true)) then None
    else Some((mode == Mode(true), oid))
  }

  function ParseRecord(r: Bytes, rule: PathRule): Option<Listed> {
    var tab := IndexOf(r, TAB);
    if tab == |r| || !rule(r[tab + 1..]) then None else
    match ParseMetadata(r[..tab])
    case None => None
    case Some((executable, oid)) => Some(Listed(executable, oid, r[tab + 1..]))
  }

  lemma FirstAt(a: Bytes, b: Byte, c: Bytes)
    requires b !in a
    ensures IndexOf(a + [b] + c, b) == |a| && (a + [b] + c)[..|a|] == a && (a + [b] + c)[|a| + 1..] == c
  {
    assert forall i | 0 <= i < |a| :: (a + [b] + c)[i] == a[i];
    assert (a + [b] + c)[|a|] == b;
  }

  lemma MetadataPlain(e: Listed)
    requires HexOid(e.oid)
    ensures TAB !in Metadata(e) && NUL !in Metadata(e)
  {
    assert TAB !in Mode(e.executable) && NUL !in Mode(e.executable);
    hide Mode;
  }

  lemma ModesDiffer(executable: bool)
    ensures SP !in Mode(executable) && (Mode(executable) == Mode(true) <==> executable)
  {
    assert Mode(true)[3] == 0x37 && Mode(false)[3] == 0x36;
  }

  lemma MetadataParses(e: Listed)
    requires HexOid(e.oid)
    ensures ParseMetadata(Metadata(e)) == Some((e.executable, e.oid))
  {
    var m, tail := Mode(e.executable), BLOB + [SP] + e.oid;
    ModesDiffer(e.executable);
    FirstAt(m, SP, tail);
    assert Metadata(e) == m + [SP] + tail;
    FirstAt(BLOB, SP, e.oid);
    hide Mode, Metadata, HexOid;
  }

  /** A printed record reads back as its entry. */
  lemma RecordParses(e: Listed, rule: PathRule)
    requires Proper(e, rule)
    ensures ParseRecord(Record(e), rule) == Some(e)
  {
    MetadataParses(e);
    MetadataPlain(e);
    hide Metadata, ParseMetadata;
    FirstAt(Metadata(e), TAB, e.path);
  }

  lemma MetadataPrinted(s: Bytes)
    requires ParseMetadata(s).Some?
    ensures forall path :: s == Metadata(Listed(ParseMetadata(s).value.0, ParseMetadata(s).value.1, path))
    ensures HexOid(ParseMetadata(s).value.1)
  {
    var i := IndexOf(s, SP);
    var rest := s[i + 1..];
    var j := IndexOf(rest, SP);
    assert rest == rest[..j] + [SP] + rest[j + 1..];
    assert s == s[..i] + [SP] + rest;
  }

  /** A record that reads as an entry is that entry's printed form. */
  lemma RecordPrinted(r: Bytes, rule: PathRule)
    requires ParseRecord(r, rule).Some?
    ensures r == Record(ParseRecord(r, rule).value) && Proper(ParseRecord(r, rule).value, rule)
  {
    hide ParseMetadata, Metadata, IndexOf, HexOid;
    var tab := IndexOf(r, TAB);
    MetadataPrinted(r[..tab]);
    assert r == r[..tab] + [TAB] + r[tab + 1..];
  }

  /******* The whole listing *******/

  /** The non-empty records between NULs. */
  function Records(raw: Bytes): seq<Bytes> {
    var i := IndexOf(raw, NUL);
    var rest := if i == |raw| then [] else Records(raw[i + 1..]);
    if i == 0 then rest else [raw[..i]] + rest
  }

  function ParseAll(rs: seq<Bytes>, rule: PathRule): Option<seq<Listed>> {
    if rs == [] then Some([]) else
    match ParseRecord(rs[|rs| - 1], rule)
    case None => None
    case Some(e) =>
      match ParseAll(rs[..|rs| - 1], rule)
      case None => None
      case Some(es) => Some(es + [e])
  }

  ghost function Parsed(raw: Bytes, rule: PathRule): Option<seq<Listed>> {
    var all := ParseAll(Records(raw), rule);
    if all.Some? && Ascending(all.value) then all else None
  }

  function ByPath(): (Listed, Listed) -> bool {
    (x: Listed, y: Listed) => Before(x.path, y.path)
  }

  /** Read record by record, then compare with the sorted list and look for a repeated path. */
  method ParseTree(raw: Bytes, rule: PathRule) returns (r: Option<seq<Listed>>)
    ensures r == Parsed(raw, rule)
  {
    hide ParseRecord, Records, Ascending;
    var rs := Records(raw);
    var es: seq<Listed> := [];
    for i := 0 to |rs|
      invariant ParseAll(rs[..i], rule) == Some(es)
    {
      assert rs[..i + 1][..i] == rs[..i];
      var e := ParseRecord(rs[i], rule);
      if e.None? {
        FailsAt(rs, i, rule);
        return None;
      }
      es := es + [e.value];
    }
    assert rs[..|rs|] == rs;
    AscendingTest(es);
    if es != Ordering.Sort(ByPath(), es) || |set e | e in es :: e.path| != |es| {
      return None;
    }
    return Some(es);
  }

  lemma {:induction false} FailsAt(rs: seq<Bytes>, i: nat, rule: PathRule)
    requires i < |rs| && ParseRecord(rs[i], rule).None?
    ensures ParseAll(rs, rule).None?
  {
    hide ParseRecord;
    if i < |rs| - 1 { FailsAt(rs[..|rs| - 1], i, rule); }
  }

  lemma PathOrder()
    ensures Ordering.StrictWeak(ByPath())
  {
    hide Before;
    forall x: Listed, y: Listed
      ensures ByPath()(x, y) ==> !ByPath()(y, x)
    {
      BeforeTotal(x.path, y.path);
    }
    forall x: Listed, y: Listed, z: Listed
      ensures ByPath()(x, y) && ByPath()(y, z) ==> ByPath()(x, z)
      ensures !ByPath()(x, y) && !ByPath()(y, z) ==> !ByPath()(x, z)
    {
      var a, b, c := x.path, y.path, z.path;
      BeforeTotal(a, b);
      BeforeTotal(b, c);
      BeforeTotal(a, c);
      if Before(a, b) && Before(b, c) { BeforeTransitive(a, b, c); }
      if Before(c, b) && Before(b, a) { BeforeTransitive(c, b, a); }
    }
  }

  lemma BeforeTransitive(a: Bytes, b: Bytes, c: Bytes)
    requires Before(a, b) && Before(b, c)
    ensures Before(a, c)
  {
    Ordering.LexTransitive(ByteOrder(), a, b, c);
  }

  ghost predicate DistinctPaths(es: seq<Listed>) {
    forall i, j | 0 <= i < j < |es| :: es[i].path != es[j].path
  }

  function PathSet(es: seq<Listed>): set<Bytes> {
    set e | e in es :: e.path
  }

  /** Counting the path set is a test for repeated paths. */
  lemma {:induction false} CountTellsDistinct(es: seq<Listed>)
    ensures |PathSet(es)| <= |es| && (|PathSet(es)| == |es| <==> DistinctPaths(es))
  {
    if es != [] {
      var t, last := es[..|es| - 1], es[|es| - 1];
      CountTellsDistinct(t);
      assert es == t + [last];
      assert PathSet(es) == PathSet(t) + {last.path};
      if last.path in PathSet(t) {
        assert PathSet(es) == PathSet(t);
      }
      DistinctSnoc(t, last);
      hide DistinctPaths, PathSet;
    }
  }

  lemma DistinctSnoc(t: seq<Listed>, last: Listed)
    ensures DistinctPaths(t + [last]) <==> DistinctPaths(t) && last.path !in PathSet(t)
  {
    var es := t + [last];
    if last.path in PathSet(t) {
      var e :| e in t && e.path == last.path;
      var i :| 0 <= i < |t| && t[i] == e;
      assert es[i].path == es[|t|].path;
    } else {
      assert forall i | 0 <= i < |t| :: es[i] in t && es[i].path in PathSet(t);
      if DistinctPaths(es) {
        assert forall i, j | 0 <= i < j < |t| :: es[i].path != es[j].path && t[i] == es[i] && t[j] == es[j];
      }
    }
  }

  /** Equal to its own sort with no path twice: exactly strictly ascending. */
  lemma AscendingTest(es: seq<Listed>)
    ensures Ascending(es) <==> es == Ordering.Sort(ByPath(), es) && |PathSet(es)| == |es|
  {
    PathOrder();
    Ordering.SortSorts(ByPath(), es);
    Ordering.SortPermutes(ByPath(), es);
    CountTellsDistinct(es);
    forall i, j | 0 <= i < j < |es|
      ensures Before(es[i].path, es[j].path) <==> !Before(es[j].path, es[i].path) && es[i].path != es[j].path
    {
      BeforeTotal(es[i].path, es[j].path);
    }
    if Ascending(es) {
      AscendingDistinguishes(es);
      Ordering.SortedUnique(ByPath(), es, Ordering.Sort(ByPath(), es));
    }
  }

  lemma AscendingDistinguishes(es: seq<Listed>)
    requires Ascending(es)
    ensures Ordering.Distinguishes(ByPath(), multiset(es)) && Ordering.SortedBy(ByPath(), es)
  {
    hide Before;
    forall x, y | x in multiset(es) && y in multiset(es) && x != y
      ensures ByPath()(x, y) || ByPath()(y, x)
    {
      var i :| 0 <= i < |es| && es[i] == x;
      var j :| 0 <= j < |es| && es[j] == y;
    }
    forall i, j | 0 <= i < j < |es|
      ensures !ByPath()(es[j], es[i])
    {
      BeforeTotal(es[i].path, es[j].path);
    }
  }

  /******* What is accepted *******/

  lemma OneExactly(r: Bytes, e: Listed, rule: PathRule)
    ensures ParseRecord(r, rule) == Some(e) <==> r == Record(e) && Proper(e, rule)
  {
    if ParseRecord(r, rule).Some? { RecordPrinted(r, rule); }
    if Proper(e, rule) { RecordParses(e, rule); }
  }

  ghost predicate Printed(rs: seq<Bytes>, es: seq<Listed>, rule: PathRule) {
    |rs| == |es| && forall i | 0 <= i < |es| :: rs[i] == Record(es[i]) && Proper(es[i], rule)
  }

  lemma PrintedSnoc(rs: seq<Bytes>, es: seq<Listed>, rule: PathRule)
    requires rs != [] && es != []
    ensures Printed(rs, es, rule) <==>
      && Printed(rs[..|rs| - 1], es[..|es| - 1], rule)
      && rs[|rs| - 1] == Record(es[|es| - 1]) && Proper(es[|es| - 1], rule)
  {
    hide Record, Proper;
  }

  lemma {:induction false} ParseAllExactly(rs: seq<Bytes>, es: seq<Listed>, rule: PathRule)
    ensures ParseAll(rs, rule) == Some(es) <==> Printed(rs, es, rule)
  {
    hide ParseRecord, Record, Proper;
    if rs != [] && es != [] {
      var e, init := es[|es| - 1], es[..|es| - 1];
      ParseAllExactly(rs[..|rs| - 1], init, rule);
      OneExactly(rs[|rs| - 1], e, rule);
      PrintedSnoc(rs, es, rule);
      hide Printed;
      assert es == init + [e];
    }
  }

  /** Accepted exactly: the records are the printed entries, each proper, in strictly ascending path order. */
  lemma ParsedExactly(raw: Bytes, es: seq<Listed>, rule: PathRule)
    ensures Parsed(raw, rule) == Some(es) <==> Printed(Records(raw), es, rule) && Ascending(es)
  {
    ParseAllExactly(Records(raw), es, rule);
  }

  function Print(es: seq<Listed>): Bytes {
    if es == [] then [] else Record(es[0]) + [NUL] + Print(es[1..])
  }

  lemma RecordsStep(r: Bytes, rest: Bytes)
    requires r != [] && NUL !in r
    ensures Records(r + [NUL] + rest) == [r] + Records(rest)
  {
    FirstAt(r, NUL, rest);
  }

  lemma RecordPlain(e: Listed)
    requires HexOid(e.oid) && NUL !in e.path
    ensures Record(e) != [] && NUL !in Record(e)
  {
    MetadataPlain(e);
    hide Metadata;
  }

  lemma PrintedCons(r: Bytes, rs: seq<Bytes>, es: seq<Listed>, rule: PathRule)
    requires es != [] && r == Record(es[0]) && Proper(es[0], rule) && Printed(rs, es[1..], rule)
    ensures Printed([r] + rs, es, rule)
  {
    hide Record, Proper;
    var all := [r] + rs;
    forall i | 0 <= i < |es|
      ensures all[i] == Record(es[i]) && Proper(es[i], rule)
    {
      if i > 0 { assert all[i] == rs[i - 1] && es[1..][i - 1] == es[i]; }
    }
  }

  lemma {:induction false} PrintRecords(es: seq<Listed>, rule: PathRule)
    requires forall i | 0 <= i < |es| :: Proper(es[i], rule) && NUL !in es[i].path
    ensures Printed(Records(Print(es)), es, rule)
  {
    if es == [] {
      assert Records([]) == [];
    } else {
      PrintRecords(es[1..], rule);
      RecordPlain(es[0]);
      hide Record, Proper, Records, Printed;
      RecordsStep(Record(es[0]), Print(es[1..]));
      PrintedCons(Record(es[0]), Records(Print(es[1..])), es, rule);
    }
  }

  /** The reader inverts the printer on every canonical tree. */
  lemma TreeRoundTrip(es: seq<Listed>, rule: PathRule)
    requires Ascending(es) && forall i | 0 <= i < |es| :: Proper(es[i], rule) && NUL !in es[i].path
    ensures Parsed(Print(es), rule) == Some(es)
  {
    PrintRecords(es, rule);
    ParsedExactly(Print(es), es, rule);
  }
}
