/** The wheel preflight accepts exactly the archives that have a gap-free layout. */
module ZipPreflight {
  import opened Basics
  import opened ZipLayout
  import Ordering

  /** What the preflight reads out of a central directory entry. */
  datatype Entry = Entry(
    localOffset: nat, at: nat, next: nat, nameSize: nat, needed: nat, flags: nat, compression: nat,
    crc: nat, compressed: nat, uncompressed: nat)

  function EntryAt(p: Bytes, at: nat): Entry
    requires at + 46 <= |p|
  {
    Entry(U32(p, at + 42), at, at + 46 + U16(p, at + 28) + U16(p, at + 30) + U16(p, at + 32),
          U16(p, at + 28), U16(p, at + 6), U16(p, at + 8), U16(p, at + 10), U32(p, at + 16),
          U32(p, at + 20), U32(p, at + 24))
  }

  /** Supported version, flags (only the UTF-8 name bit) and method; one disk; no ZIP64 marker. */
  predicate EntrySupported(p: Bytes, at: nat)
    requires at + 46 <= |p|
  {
    var e := EntryAt(p, at);
    && e.compressed != 0xFFFF_FFFF && e.uncompressed != 0xFFFF_FFFF && e.localOffset != 0xFFFF_FFFF
    && U16(p, at + 34) == 0
    && e.needed == 20 && (e.flags == 0 || e.flags == 0x0800) && (e.compression == 0 || e.compression == 8)
  }

  /** A well-formed entry starts at `at` and ends no later than `end`. */
  ghost predicate EntryOk(p: Bytes, at: nat, end: nat) {
    && at + 46 <= end <= |p| && Signed(p, at, 1, 2)
    && EntryAt(p, at).next <= end
    && EntrySupported(p, at)
    && ExtrasWellFormed(p[at + 46 + U16(p, at + 28)..at + 46 + U16(p, at + 28) + U16(p, at + 30)])
  }

  function EndOf(es: seq<Entry>, start: nat): nat {
    if es == [] then start else es[|es| - 1].next
  }

  /** Entries stand back to back from `start`. */
  ghost predicate Chained(p: Bytes, start: nat, end: nat, es: seq<Entry>) {
    forall i | 0 <= i < |es| ::
      es[i].at == EndOf(es[..i], start) && EntryOk(p, es[i].at, end) && es[i] == EntryAt(p, es[i].at)
  }

  ghost predicate DistinctOffsets(es: seq<Entry>) {
    forall i, j | 0 <= i < j < |es| :: es[i].localOffset != es[j].localOffset
  }

  function Compressed(es: seq<Entry>): nat {
    if es == [] then 0 else Compressed(es[..|es| - 1]) + es[|es| - 1].compressed
  }

  function Declared(es: seq<Entry>): nat {
    if es == [] then 0 else Declared(es[..|es| - 1]) + es[|es| - 1].uncompressed
  }

  predicate WithinLimits(es: seq<Entry>) {
    |es| <= MEMBER_LIMIT && Compressed(es) <= COMPRESSED_LIMIT && Declared(es) <= DECLARED_LIMIT
  }

  /** `es` is the whole central directory `p[start..end]`, entry by entry. */
  ghost predicate Directory(p: Bytes, start: nat, end: nat, es: seq<Entry>) {
    Chained(p, start, end, es) && EndOf(es, start) == end && DistinctOffsets(es) && WithinLimits(es)
  }

  /******* Reading the directory *******/

  method ReadEntry(p: Bytes, at: nat, end: nat) returns (entry: Option<Entry>)
    requires end <= |p|
    ensures entry.Some? <==> EntryOk(p, at, end)
    ensures entry.Some? ==> entry.value == EntryAt(p, at) && at < entry.value.next <= end
  {
    if at + 46 > end || !Signed(p, at, 1, 2) {
      return None;
    }
    var e := EntryAt(p, at);
    if e.next > end || !EntrySupported(p, at) {
      return None;
    }
    var extras := CheckExtras(p, at + 46 + e.nameSize, U16(p, at + 30));
    entry := if extras then Some(e) else None;
  }

  lemma {:induction false} SumsGrow(es: seq<Entry>, k: nat)
    requires k <= |es|
    ensures Compressed(es[..k]) <= Compressed(es) && Declared(es[..k]) <= Declared(es)
    decreases |es|
  {
    if k < |es| {
      SumsGrow(es[..|es| - 1], k);
      assert es[..|es| - 1][..k] == es[..k];
    } else {
      assert es[..k] == es;
    }
  }

  /** The bytes force the chain: two chains from one start agree as far as both go. */
  lemma {:induction false} ChainsAgree(p: Bytes, start: nat, end: nat, a: seq<Entry>, b: seq<Entry>, k: nat)
    requires Chained(p, start, end, a) && Chained(p, start, end, b) && k <= |a| && k <= |b|
    ensures a[..k] == b[..k]
  {
    hide EntryOk, EntryAt;
    if k > 0 {
      ChainsAgree(p, start, end, a, b, k - 1);
      assert a[k - 1].at == EndOf(a[..k - 1], start) && b[k - 1].at == EndOf(b[..k - 1], start);
      assert a[..k] == a[..k - 1] + [a[k - 1]] && b[..k] == b[..k - 1] + [b[k - 1]];
    }
  }

  lemma EntryAdvances(p: Bytes, at: nat, end: nat)
    requires EntryOk(p, at, end)
    ensures at <= EntryAt(p, at).next
  {
  }

  lemma {:induction false} EndsGrow(p: Bytes, start: nat, end: nat, es: seq<Entry>, k: nat)
    requires Chained(p, start, end, es) && k <= |es|
    ensures EndOf(es[..k], start) <= EndOf(es, start)
    decreases |es| - k
  {
    hide EntryOk;
    if k < |es| {
      EndsGrow(p, start, end, es, k + 1);
      assert es[..k + 1][k] == es[k] && es[k].at == EndOf(es[..k], start);
      EntryAdvances(p, es[k].at, end);
      hide EntryAt;
    } else {
      assert es[..k] == es;
    }
  }

  /** What has been read is a proper prefix of any directory that ends further on. */
  lemma ReadIsPrefix(p: Bytes, start: nat, end: nat, read: seq<Entry>, es: seq<Entry>)
    requires Chained(p, start, end, read) && Directory(p, start, end, es)
    requires EndOf(read, start) < end
    ensures |read| < |es| && es[..|read|] == read && es[|read|].at == EndOf(read, start)
  {
    hide EntryOk, EntryAt;
    assert es[..|es|] == es && read[..|read|] == read;
    var k := if |es| < |read| then |es| else |read|;
    ChainsAgree(p, start, end, read, es, k);
    EndsGrow(p, start, end, read, k);
    assert EndOf(es[..k], start) < end;
  }

  lemma ChainExtends(p: Bytes, start: nat, end: nat, es: seq<Entry>, at: nat)
    requires Chained(p, start, end, es) && EndOf(es, start) == at && EntryOk(p, at, end)
    ensures Chained(p, start, end, es + [EntryAt(p, at)])
  {
    var more := es + [EntryAt(p, at)];
    forall i | 0 <= i < |more|
      ensures more[i].at == EndOf(more[..i], start) && EntryOk(p, more[i].at, end) && more[i] == EntryAt(p, more[i].at)
    {
      if i < |es| {
        assert more[..i] == es[..i];
      } else {
        assert more[..i] == es;
      }
    }
  }

  lemma SumsExtend(es: seq<Entry>, e: Entry)
    ensures Compressed(es + [e]) == Compressed(es) + e.compressed
    ensures Declared(es + [e]) == Declared(es) + e.uncompressed
  {
    assert (es + [e])[..|es|] == es;
  }

  /** The bytes after `read` must be the directory's next entry, within every limit. */
  lemma NextForced(p: Bytes, start: nat, end: nat, read: seq<Entry>, es: seq<Entry>)
    requires Chained(p, start, end, read) && Directory(p, start, end, es) && EndOf(read, start) < end
    ensures EntryOk(p, EndOf(read, start), end)
    ensures var more := read + [EntryAt(p, EndOf(read, start))]; DistinctOffsets(more) && WithinLimits(more)
  {
    hide EntryOk, EntryAt;
    ReadIsPrefix(p, start, end, read, es);
    assert EntryOk(p, es[|read|].at, end);
    var more := es[..|read| + 1];
    assert more == read + [es[|read|]];
    SumsGrow(es, |more|);
    assert forall i | 0 <= i < |more| :: more[i] == es[i];
  }

  /** If the entry after `read` is missing, malformed or over a limit, no directory exists. */
  lemma NoDirectory(p: Bytes, start: nat, end: nat, read: seq<Entry>, es: seq<Entry>)
    requires end <= |p| && Chained(p, start, end, read) && EndOf(read, start) < end
    requires EntryOk(p, EndOf(read, start), end) ==>
      var more := read + [EntryAt(p, EndOf(read, start))];
      !DistinctOffsets(more) || !WithinLimits(more)
    ensures !Directory(p, start, end, es)
  {
    if Directory(p, start, end, es) {
      NextForced(p, start, end, read, es);
    }
  }

  lemma DirectoryNotLonger(p: Bytes, start: nat, end: nat, a: seq<Entry>, b: seq<Entry>, k: nat)
    requires Directory(p, start, end, a) && Directory(p, start, end, b)
    requires k == |a| <= |b|
    ensures |b| == |a|
  {
    assert k < |b| ==> b[k].at == EndOf(b[..k], start) && b[k].at < end;
    ChainsAgree(p, start, end, a, b, k);
    assert a[..k] == a;
  }

  /** A byte range is a directory in at most one way. */
  lemma DirectoryUnique(p: Bytes, start: nat, end: nat, a: seq<Entry>, b: seq<Entry>)
    requires Directory(p, start, end, a) && Directory(p, start, end, b)
    ensures a == b
  {
    if |a| <= |b| {
      DirectoryNotLonger(p, start, end, a, b, |a|);
    } else {
      DirectoryNotLonger(p, start, end, b, a, |b|);
    }
    ChainsAgree(p, start, end, a, b, |a|);
    assert a[..|a|] == a && b[..|b|] == b;
  }

  /** Read the directory entry by entry, refusing as soon as it cannot be completed. */
  method ReadDirectory(p: Bytes, start: nat, end: nat) returns (directory: Option<seq<Entry>>, totals: Totals)
    requires start <= end <= |p|
    ensures directory.Some? ==> Directory(p, start, end, directory.value)
    ensures directory.Some? ==>
      totals == Totals(|directory.value|, Compressed(directory.value), Declared(directory.value))
    ensures directory.None? ==> forall es :: !Directory(p, start, end, es)
  {
    hide EntryOk, EntryAt, Chained, Compressed, Declared, Offsets, DistinctOffsets;
    var records: seq<Entry> := [];
    var offsets: set<nat> := {};
    var compressed, declared := 0, 0;
    var cursor := start;
    NothingRead(p, start, end);
    while cursor < end
      invariant start <= cursor <= end
      invariant Chained(p, start, end, records) && EndOf(records, start) == cursor
      invariant offsets == Offsets(records)
      invariant compressed == Compressed(records) && declared == Declared(records)
      invariant DistinctOffsets(records) && WithinLimits(records)
      decreases end - cursor
    {
      var entry := ReadEntry(p, cursor, end);
      if entry.None? {
        forall es { NoDirectory(p, start, end, records, es); }
        return None, Totals(0, 0, 0);
      }
      var e := entry.value;
      ghost var more := records + [e];
      SumsExtend(records, e);
      OffsetsExtend(records, e);
      if e.localOffset in offsets {
        forall es { NoDirectory(p, start, end, records, es); }
        return None, Totals(0, 0, 0);
      }
      offsets := offsets + {e.localOffset};
      compressed := compressed + e.compressed;
      declared := declared + e.uncompressed;
      if |records| + 1 > MEMBER_LIMIT || compressed > COMPRESSED_LIMIT || declared > DECLARED_LIMIT {
        forall es { NoDirectory(p, start, end, records, es); }
        return None, Totals(0, 0, 0);
      }
      ChainExtends(p, start, end, records, cursor);
      EndExtends(records, e, start);
      records := records + [e];
      cursor := e.next;
    }
    return Some(records), Totals(|records|, compressed, declared);
  }

  lemma NothingRead(p: Bytes, start: nat, end: nat)
    ensures Chained(p, start, end, []) && Compressed([]) == 0 && Declared([]) == 0
    ensures Offsets([]) == {} && DistinctOffsets([])
  {
  }

  lemma EndExtends(es: seq<Entry>, e: Entry, start: nat)
    ensures EndOf(es + [e], start) == e.next
  {
  }

  function Offsets(es: seq<Entry>): set<nat> {
    set e | e in es :: e.localOffset
  }

  /** A new entry's offset collides exactly when it is already in the set. */
  lemma OffsetsExtend(es: seq<Entry>, e: Entry)
    requires DistinctOffsets(es)
    ensures Offsets(es + [e]) == Offsets(es) + {e.localOffset}
    ensures DistinctOffsets(es + [e]) <==> e.localOffset !in Offsets(es)
  {
    var more := es + [e];
    assert more[|es|] == e && forall i | 0 <= i < |es| :: more[i] == es[i];
    assert forall x :: x in more <==> x in es || x == e;
    if e.localOffset in Offsets(es) {
      var i :| 0 <= i < |es| && es[i].localOffset == e.localOffset;
      assert more[i].localOffset == more[|es|].localOffset;
    }
  }

  /******* Local regions *******/

  /** The local header at the entry's offset repeats the entry's name and metadata. */
  ghost predicate LocalOk(p: Bytes, e: Entry, central: nat) {
    var at := e.localOffset;
    && at + 30 <= central <= |p| && Signed(p, at, 3, 4)
    && RegionEnd(p, e) <= central
    && e.at + 46 + e.nameSize <= |p|
    && p[at + 30..at + 30 + U16(p, at + 26)] == p[e.at + 46..e.at + 46 + e.nameSize]
    && U16(p, at + 4) == e.needed && U16(p, at + 6) == e.flags && U16(p, at + 8) == e.compression
    && U32(p, at + 14) == e.crc && U32(p, at + 18) == e.compressed && U32(p, at + 22) == e.uncompressed
    && ExtrasWellFormed(p[at + 30 + U16(p, at + 26)..at + 30 + U16(p, at + 26) + U16(p, at + 28)])
  }

  /** Where local header, name, extra field and data of one entry end; past the file when the header is cut off. */
  function RegionEnd(p: Bytes, e: Entry): nat {
    var at := e.localOffset;
    if at + 30 > |p| then |p| + 1 else at + 30 + U16(p, at + 26) + U16(p, at + 28) + U32(p, at + 18)
  }

  /** The regions of `order`, in that order, fill `p[..central]` without gap or overlap. */
  ghost predicate LocalsFill(p: Bytes, order: seq<Entry>, central: nat) {
    && (forall i | 0 <= i < |order| :: LocalOk(p, order[i], central)
          && order[i].localOffset == if i == 0 then 0 else RegionEnd(p, order[i - 1]))
    && central == if order == [] then 0 else RegionEnd(p, order[|order| - 1])
  }

  method CheckLocal(p: Bytes, e: Entry, central: nat) returns (ok: bool)
    requires central <= |p| && e.at + 46 + e.nameSize <= |p|
    ensures ok <==> LocalOk(p, e, central)
  {
    var at := e.localOffset;
    if at + 30 > central || !Signed(p, at, 3, 4) {
      return false;
    }
    var nameSize, extraSize := U16(p, at + 26), U16(p, at + 28);
    if RegionEnd(p, e) > central
       || p[at + 30..at + 30 + nameSize] != p[e.at + 46..e.at + 46 + e.nameSize]
       || U16(p, at + 4) != e.needed || U16(p, at + 6) != e.flags || U16(p, at + 8) != e.compression
       || U32(p, at + 14) != e.crc || U32(p, at + 18) != e.compressed || U32(p, at + 22) != e.uncompressed
    {
      return false;
    }
    ok := CheckExtras(p, at + 30 + nameSize, extraSize);
  }

  /** Walk the entries by local offset, each region starting where the previous ended. */
  method CheckLocals(p: Bytes, order: seq<Entry>, central: nat) returns (ok: bool)
    requires central <= |p| && forall i | 0 <= i < |order| :: order[i].at + 46 + order[i].nameSize <= |p|
    ensures ok <==> LocalsFill(p, order, central)
  {
    hide LocalOk;
    var previous := 0;
    var i := 0;
    while i < |order|
      invariant 0 <= i <= |order|
      invariant forall k | 0 <= k < i ::
        LocalOk(p, order[k], central) && order[k].localOffset == if k == 0 then 0 else RegionEnd(p, order[k - 1])
      invariant previous == if i == 0 then 0 else RegionEnd(p, order[i - 1])
    {
      ok := CheckLocal(p, order[i], central);
      if !ok || order[i].localOffset != previous {
        NotFilled(p, order, central, i);
        return false;
      }
      previous := RegionEnd(p, order[i]);
      i := i + 1;
    }
    ok := previous == central;
  }

  /** A mismatch at one entry rules the whole filling out. */
  lemma NotFilled(p: Bytes, order: seq<Entry>, central: nat, i: nat)
    requires i < |order|
    requires !LocalOk(p, order[i], central)
      || order[i].localOffset != (if i == 0 then 0 else RegionEnd(p, order[i - 1]))
    ensures !LocalsFill(p, order, central)
  {
    hide LocalOk, RegionEnd;
  }

  lemma LocalFits(p: Bytes, e: Entry, central: nat)
    requires LocalOk(p, e, central)
    ensures e.localOffset < RegionEnd(p, e) <= central
  {
  }

  /******* The whole archive *******/

  /** An archive's layout: its record, its directory, and its entries in the order of their regions. */
  datatype Layout = Layout(eocd: nat, entries: seq<Entry>, order: seq<Entry>)

  ghost predicate IsLayout(p: Bytes, l: Layout) {
    && OnlyEocd(p, l.eocd) && EocdUsable(p, l.eocd)
    && var d := DecodeEocd(p, l.eocd);
    && d.centralOffset + d.centralSize == l.eocd
    && |l.entries| == d.entries && Directory(p, d.centralOffset, l.eocd, l.entries)
    && multiset(l.order) == multiset(l.entries)
    && LocalsFill(p, l.order, d.centralOffset)
  }

  datatype Totals = Totals(members: nat, compressed: nat, declared: nat)

  function ByOffset(): (Entry, Entry) -> bool {
    (a: Entry, b: Entry) => a.localOffset < b.localOffset
  }

  /** Regions that fill a range stand in increasing order of offset. */
  lemma {:induction false} FillIncreases(p: Bytes, order: seq<Entry>, central: nat, i: nat, j: nat)
    requires LocalsFill(p, order, central) && i < j < |order|
    ensures order[i].localOffset < order[j].localOffset
    decreases j
  {
    hide LocalOk, RegionEnd;
    LocalFits(p, order[j - 1], central);
    if i < j - 1 {
      FillIncreases(p, order, central, i, j - 1);
    }
  }

  /** So the filling order of a directory is its sorted order. */
  lemma FillIsSorted(p: Bytes, es: seq<Entry>, order: seq<Entry>, central: nat)
    requires LocalsFill(p, order, central) && multiset(order) == multiset(es) && DistinctOffsets(es)
    ensures order == Ordering.Sort(ByOffset(), es)
  {
    var lt := ByOffset();
    forall i, j | 0 <= i < j < |order|
      ensures !lt(order[j], order[i])
    {
      FillIncreases(p, order, central, i, j);
    }
    forall x, y | x in multiset(order) && y in multiset(order) && x != y
      ensures lt(x, y) || lt(y, x)
    {
      assert x in es && y in es;
    }
    Ordering.SortSorts(lt, es);
    Ordering.SortPermutes(lt, es);
    Ordering.SortedUnique(lt, order, Ordering.Sort(lt, es));
  }

  lemma EntriesFit(p: Bytes, start: nat, end: nat, es: seq<Entry>, order: seq<Entry>)
    requires Directory(p, start, end, es) && multiset(order) == multiset(es) && end <= |p|
    ensures forall i | 0 <= i < |order| :: order[i].at + 46 + order[i].nameSize <= |p|
  {
    forall i | 0 <= i < |order|
      ensures order[i].at + 46 + order[i].nameSize <= |p|
    {
      assert order[i] in multiset(es);
      var k :| 0 <= k < |es| && es[k] == order[i];
      assert EntryOk(p, es[k].at, end);
    }
  }

  /** A refusal of either half leaves no layout at all. */
  lemma NoLayout(p: Bytes, eocd: nat, entries: Option<seq<Entry>>, l: Layout)
    requires OnlyEocd(p, eocd)
    requires EocdUsable(p, eocd) ==>
      var d := DecodeEocd(p, eocd);
      || d.centralOffset + d.centralSize != eocd
      || (entries.None? && forall es :: !Directory(p, d.centralOffset, eocd, es))
      || (entries.Some? && Directory(p, d.centralOffset, eocd, entries.value) && |entries.value| != d.entries)
      || (entries.Some? && Directory(p, d.centralOffset, eocd, entries.value)
          && !LocalsFill(p, Ordering.Sort(ByOffset(), entries.value), d.centralOffset))
    ensures !IsLayout(p, l)
  {
    EocdFits(p, eocd);
    hide Directory, LocalsFill, EocdAt;
    if IsLayout(p, l) && entries.Some? {
      var d := DecodeEocd(p, eocd);
      DirectoryUnique(p, d.centralOffset, eocd, entries.value, l.entries);
      DirectoryDistinct(p, d.centralOffset, eocd, l.entries);
      FillIsSorted(p, l.entries, l.order, d.centralOffset);
    }
  }

  lemma DirectoryDistinct(p: Bytes, start: nat, end: nat, es: seq<Entry>)
    requires Directory(p, start, end, es)
    ensures DistinctOffsets(es)
  {
  }

  /**
   The preflight accepts exactly the payloads that have a layout, and returns its exact totals.
   */
  method Preflight(p: Bytes) returns (totals: Option<Totals>, ghost layout: Layout)
    ensures totals.Some? ==> IsLayout(p, layout)
    ensures totals.Some? ==>
      totals == Some(Totals(|layout.entries|, Compressed(layout.entries), Declared(layout.entries)))
    ensures totals.None? ==> forall l :: !IsLayout(p, l)
  {
    hide Directory, LocalsFill, EocdAt;
    totals, layout := None, Layout(0, [], []);
    var found := LocateEocd(p);
    if found.None? {
      return;
    }
    var eocd := found.value;
    EocdFits(p, eocd);
    var d := DecodeEocd(p, eocd);
    if !EocdUsable(p, eocd) || d.centralOffset + d.centralSize != eocd {
      forall l { NoLayout(p, eocd, None, l); }
      return;
    }
    var directory, counted := ReadDirectory(p, d.centralOffset, eocd);
    if directory.None? || |directory.value| != d.entries {
      forall l { NoLayout(p, eocd, directory, l); }
      return;
    }
    var order := Ordering.Sort(ByOffset(), directory.value);
    Ordering.SortPermutes(ByOffset(), directory.value);
    EntriesFit(p, d.centralOffset, eocd, directory.value, order);
    var filled := CheckLocals(p, order, d.centralOffset);
    if !filled {
      forall l { NoLayout(p, eocd, directory, l); }
      return;
    }
    layout := Layout(eocd, directory.value, order);
    totals := Some(counted);
  }

  /** A file has at most one layout. */
  lemma LayoutUnique(p: Bytes, l: Layout, m: Layout)
    requires IsLayout(p, l) && IsLayout(p, m)
    ensures l == m
  {
    EocdFits(p, l.eocd);
    hide Directory, LocalsFill, EocdAt;
    var central := DecodeEocd(p, l.eocd).centralOffset;
    DirectoryUnique(p, central, l.eocd, l.entries, m.entries);
    DirectoryDistinct(p, central, l.eocd, l.entries);
    FillIsSorted(p, l.entries, l.order, central);
    FillIsSorted(p, l.entries, m.order, central);
  }

  lemma EocdFits(p: Bytes, o: nat)
    requires EocdAt(p, o)
    ensures o + EOCD_SIZE <= |p|
  {
  }

  /******* Every byte has one owner *******/

  datatype Region = Region(start: nat, end: nat)

  ghost function LocalRegion(p: Bytes, e: Entry): Region {
    Region(e.localOffset, RegionEnd(p, e))
  }

  ghost function CentralRegion(e: Entry): Region {
    Region(e.at, e.next)
  }

  ghost function LocalRegions(p: Bytes, order: seq<Entry>): seq<Region> {
    seq(|order|, i requires 0 <= i < |order| => LocalRegion(p, order[i]))
  }

  ghost function CentralRegions(es: seq<Entry>): seq<Region> {
    seq(|es|, i requires 0 <= i < |es| => CentralRegion(es[i]))
  }

  /** Local regions by offset, then directory entries, then the record with its comment. */
  ghost function Regions(p: Bytes, l: Layout): seq<Region> {
    LocalRegions(p, l.order) + CentralRegions(l.entries) + [Region(l.eocd, |p|)]
  }

  /** Regions stand back to back from `a` to `b`, none of them empty. */
  ghost predicate Tiles(rs: seq<Region>, a: nat, b: nat) {
    if rs == [] then a == b else rs[0].start == a < rs[0].end && Tiles(rs[1..], rs[0].end, b)
  }

  lemma {:induction false} TilesConcat(x: seq<Region>, y: seq<Region>, a: nat, b: nat, c: nat)
    requires Tiles(x, a, b) && Tiles(y, b, c)
    ensures Tiles(x + y, a, c)
  {
    if x == [] {
      assert x + y == y;
    } else {
      TilesConcat(x[1..], y, x[0].end, b, c);
      assert (x + y)[1..] == x[1..] + y;
    }
  }

  lemma {:induction false} LocalsTile(p: Bytes, order: seq<Entry>, central: nat, k: nat)
    requires LocalsFill(p, order, central) && k <= |order|
    ensures Tiles(LocalRegions(p, order)[k..], if k == 0 then 0 else RegionEnd(p, order[k - 1]), central)
    decreases |order| - k
  {
    hide LocalOk;
    var rs := LocalRegions(p, order);
    if k < |order| {
      LocalFits(p, order[k], central);
      LocalsTile(p, order, central, k + 1);
      assert rs[k..][1..] == rs[k + 1..];
    }
  }

  lemma {:induction false} DirectoryTiles(p: Bytes, start: nat, end: nat, es: seq<Entry>, k: nat)
    requires Directory(p, start, end, es) && k <= |es|
    ensures Tiles(CentralRegions(es)[k..], EndOf(es[..k], start), end)
    decreases |es| - k
  {
    var rs := CentralRegions(es);
    if k < |es| {
      assert es[k].at == EndOf(es[..k], start);
      assert es[..k + 1][k] == es[k];
      DirectoryTiles(p, start, end, es, k + 1);
      assert rs[k..][1..] == rs[k + 1..];
    } else {
      assert es[..k] == es;
    }
  }

  /** The regions of a layout tile the file. */
  lemma LayoutTiles(p: Bytes, l: Layout)
    requires IsLayout(p, l)
    ensures Tiles(Regions(p, l), 0, |p|)
  {
    EocdFits(p, l.eocd);
    hide Directory, LocalsFill, EocdAt;
    var central := DecodeEocd(p, l.eocd).centralOffset;
    var locals, directory, last := LocalRegions(p, l.order), CentralRegions(l.entries), [Region(l.eocd, |p|)];
    LocalsTile(p, l.order, central, 0);
    DirectoryTiles(p, central, l.eocd, l.entries, 0);
    assert locals[0..] == locals && directory[0..] == directory && last[1..] == [];
    TilesConcat(locals, directory, 0, central, l.eocd);
    TilesConcat(locals + directory, last, 0, l.eocd, |p|);
  }

  ghost predicate Contains(r: Region, at: nat) {
    r.start <= at < r.end
  }

  lemma {:induction false} TilesAbove(rs: seq<Region>, a: nat, b: nat, j: nat)
    requires Tiles(rs, a, b) && j < |rs|
    ensures a <= rs[j].start
  {
    if j > 0 {
      TilesAbove(rs[1..], rs[0].end, b, j - 1);
    }
  }

  lemma {:induction false} Owner(rs: seq<Region>, a: nat, b: nat, at: nat) returns (owner: nat)
    requires Tiles(rs, a, b) && a <= at < b
    ensures owner < |rs| && Contains(rs[owner], at)
    ensures forall j | 0 <= j < |rs| && Contains(rs[j], at) :: j == owner
  {
    if at < rs[0].end {
      owner := 0;
      forall j | 0 < j < |rs|
        ensures !Contains(rs[j], at)
      {
        TilesAbove(rs[1..], rs[0].end, b, j - 1);
      }
    } else {
      var rest := Owner(rs[1..], rs[0].end, b, at);
      owner := rest + 1;
      forall j | 0 < j < |rs| && Contains(rs[j], at)
        ensures j == owner
      {
        assert rs[1..][j - 1] == rs[j];
      }
    }
  }

  /** In an accepted archive every byte of the file lies in exactly one region. */
  lemma EveryByteOnce(p: Bytes, l: Layout, at: nat) returns (owner: nat)
    requires IsLayout(p, l) && at < |p|
    ensures owner < |Regions(p, l)| && Contains(Regions(p, l)[owner], at)
    ensures forall j | 0 <= j < |Regions(p, l)| && Contains(Regions(p, l)[j], at) :: j == owner
  {
    hide IsLayout, Regions;
    LayoutTiles(p, l);
    owner := Owner(Regions(p, l), 0, |p|, at);
  }

  /** Each local region repeats exactly one directory entry, and each entry has its region. */
  lemma RegionsMatchEntries(p: Bytes, l: Layout)
    requires IsLayout(p, l)
    ensures |l.order| == |l.entries| && multiset(l.order) == multiset(l.entries)
    ensures forall e | e in l.entries :: e in l.order && LocalOk(p, e, DecodeEocd(p, l.eocd).centralOffset)
    ensures DistinctOffsets(l.entries)
  {
    hide LocalOk, EntryOk;
    assert |multiset(l.order)| == |multiset(l.entries)|;
    forall e | e in l.entries
      ensures e in l.order
    {
      assert e in multiset(l.order);
    }
  }
}
