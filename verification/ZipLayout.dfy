/**
 The structural preflight of a wheel: one end-of-central-directory record, a central directory
 that ends where that record begins, and local regions that fill the rest, entry by entry
 (sections 4.3.7, 4.3.12, 4.3.16 and 4.5.1 of the PKWARE .ZIP File Format Specification).
 */
module ZipLayout {
  import opened Basics

  const MEMBER_LIMIT: nat := 16_384
  const COMPRESSED_LIMIT: nat := 0x8000_0000
  const DECLARED_LIMIT: nat := 0x2_0000_0000
  const EOCD_SIZE: nat := 22
  const MAXIMUM_COMMENT: nat := 65_535

  function U16(p: Bytes, at: nat): (v: nat)
    requires at + 2 <= |p|
    ensures v < 0x1_0000
  {
    p[at] as nat + 0x100 * p[at + 1] as nat
  }

  function U32(p: Bytes, at: nat): (v: nat)
    requires at + 4 <= |p|
    ensures v < 0x1_0000_0000
  {
    U16(p, at) + 0x1_0000 * U16(p, at + 2)
  }

  /** The signature "PK" followed by `a` and `b` starts at `at`. */
  predicate Signed(p: Bytes, at: nat, a: Byte, b: Byte) {
    at + 4 <= |p| && p[at] == 0x50 && p[at + 1] == 0x4b && p[at + 2] == a && p[at + 3] == b
  }

  /******* The end of central directory *******/

  /** A record starts at `o` and its comment ends the file. */
  predicate EocdAt(p: Bytes, o: nat) {
    Signed(p, o, 5, 6) && o + EOCD_SIZE <= |p| && o + EOCD_SIZE + U16(p, o + 20) == |p|
  }

  ghost predicate OnlyEocd(p: Bytes, o: nat) {
    EocdAt(p, o) && forall q: nat | EocdAt(p, q) :: q == o
  }

  datatype Eocd = Eocd(offset: nat, entries: nat, centralOffset: nat, centralSize: nat)

  function DecodeEocd(p: Bytes, o: nat): Eocd
    requires o + EOCD_SIZE <= |p|
  {
    Eocd(o, U16(p, o + 10), U32(p, o + 16), U32(p, o + 12))
  }

  /** One disk, no ZIP64 markers, and a central directory that ends no later than the record. */
  predicate EocdUsable(p: Bytes, o: nat)
    requires o + EOCD_SIZE <= |p|
  {
    var e := DecodeEocd(p, o);
    && U16(p, o + 4) == 0 && U16(p, o + 6) == 0 && U16(p, o + 8) == e.entries
    && e.entries != 0xFFFF && e.centralSize != 0xFFFF_FFFF && e.centralOffset != 0xFFFF_FFFF
    && e.centralSize + e.centralOffset <= o
  }

  /** The least signature offset at or after `from`, or the length when there is none. */
  method FindSignature(tail: Bytes, from: nat) returns (at: nat)
    requires from <= |tail|
    ensures from <= at <= |tail|
    ensures at < |tail| ==> Signed(tail, at, 5, 6)
    ensures forall q | from <= q < at :: !Signed(tail, q, 5, 6)
  {
    at := from;
    while at < |tail| && !Signed(tail, at, 5, 6)
      invariant from <= at <= |tail|
      invariant forall q | from <= q < at :: !Signed(tail, q, 5, 6)
    {
      at := at + 1;
    }
  }

  /** In the tail, the record test is the test on the whole file. */
  lemma TailRecord(p: Bytes, start: nat, o: nat)
    requires start <= |p|
    ensures EocdAt(p[start..], o) <==> EocdAt(p, start + o)
  {
    if start + o + EOCD_SIZE <= |p| {
      var t := p[start..];
      assert t[o] == p[start + o] && t[o + 1] == p[start + o + 1];
      assert t[o + 2] == p[start + o + 2] && t[o + 3] == p[start + o + 3];
      assert t[o + 20] == p[start + o + 20] && t[o + 21] == p[start + o + 21];
    }
  }

  /** A comment is at most 65535 bytes, so no record starts before the tail. */
  lemma RecordsInTail(p: Bytes, o: nat)
    requires EocdAt(p, o)
    ensures |p| <= o + EOCD_SIZE + MAXIMUM_COMMENT
  {
  }

  /**
   Search the last 22 + 65535 bytes. The result is what a search of the whole file gives: an
   offset exactly when one record, and only one, sits anywhere in it with its comment ending
   the file.
   */
  method LocateEocd(p: Bytes) returns (found: Option<nat>)
    ensures found.Some? ==> OnlyEocd(p, found.value)
    ensures found.None? ==> forall o: nat :: !OnlyEocd(p, o)
  {
    if |p| < EOCD_SIZE {
      return None;
    }
    var start := if |p| > EOCD_SIZE + MAXIMUM_COMMENT then |p| - EOCD_SIZE - MAXIMUM_COMMENT else 0;
    var tail := p[start..];
    found := None;
    var offset := 0;
    while true
      invariant offset <= |tail|
      invariant found.Some? ==> start <= found.value < start + offset && EocdAt(p, found.value)
      invariant forall q: nat | q < offset && EocdAt(tail, q) :: found == Some(start + q)
      decreases |tail| - offset
    {
      offset := FindSignature(tail, offset);
      if offset == |tail| {
        break;
      }
      TailRecord(p, start, offset);
      if EocdAt(tail, offset) {
        if found.Some? {
          return None;
        }
        found := Some(start + offset);
      }
      offset := offset + 1;
    }
    forall o: nat | EocdAt(p, o)
      ensures found == Some(o)
    {
      RecordsInTail(p, o);
      TailRecord(p, start, o - start);
    }
  }

  /******* Extra fields *******/

  datatype Extra = Extra(id: nat, data: Bytes)

  function Le16(v: nat): Bytes
    requires v < 0x1_0000
  {
    [(v % 0x100) as Byte, (v / 0x100) as Byte]
  }

  ghost predicate Encodable(f: Extra) {
    f.id < 0x1_0000 && |f.data| < 0x1_0000
  }

  ghost function EncodeExtras(fs: seq<Extra>): Bytes
    requires forall i | 0 <= i < |fs| :: Encodable(fs[i])
  {
    if fs == [] then [] else assert Encodable(fs[0]); Le16(fs[0].id) + Le16(|fs[0].data|) + fs[0].data + EncodeExtras(fs[1..])
  }

  ghost predicate NoZip64(fs: seq<Extra>) {
    forall i | 0 <= i < |fs| :: Encodable(fs[i]) && fs[i].id != 1
  }

  /** The bytes are a sequence of extra fields, none of them ZIP64. */
  ghost predicate ExtrasWellFormed(raw: Bytes) {
    exists fs: seq<Extra> :: NoZip64(fs) && EncodeExtras(fs) == raw
  }

  /** The same, as the walk over the bytes sees it. */
  predicate ExtraChain(p: Bytes, at: nat, end: nat)
    requires at <= end <= |p|
    decreases end - at
  {
    at == end ||
    (at + 4 <= end && at + 4 + U16(p, at + 2) <= end && U16(p, at) != 1
     && ExtraChain(p, at + 4 + U16(p, at + 2), end))
  }

  lemma {:induction false} ChainEncodes(p: Bytes, at: nat, end: nat) returns (fs: seq<Extra>)
    requires at <= end <= |p| && ExtraChain(p, at, end)
    ensures NoZip64(fs) && EncodeExtras(fs) == p[at..end]
    decreases end - at
  {
    if at == end {
      fs := [];
    } else {
      var next := at + 4 + U16(p, at + 2);
      var rest := ChainEncodes(p, next, end);
      var head := Extra(U16(p, at), p[at + 4..next]);
      EncodeStep(head, rest);
      FieldBytes(p, at);
      hide EncodeExtras, Le16, U16;
      Spliced(p, at, at + 2, at + 4, next, end);
      fs := [head] + rest;
    }
  }

  lemma Spliced(p: Bytes, a: nat, b: nat, c: nat, d: nat, e: nat)
    requires a <= b <= c <= d <= e <= |p|
    ensures p[a..b] + p[b..c] + p[c..d] + p[d..e] == p[a..e]
  {
  }

  lemma EncodeStep(head: Extra, fs: seq<Extra>)
    requires Encodable(head) && head.id != 1 && NoZip64(fs)
    ensures NoZip64([head] + fs)
    ensures EncodeExtras([head] + fs) == Le16(head.id) + Le16(|head.data|) + head.data + EncodeExtras(fs)
  {
    assert ([head] + fs)[1..] == fs;
  }

  lemma FieldBytes(p: Bytes, at: nat)
    requires at + 4 <= |p|
    ensures Le16(U16(p, at)) == p[at..at + 2] && Le16(U16(p, at + 2)) == p[at + 2..at + 4]
  {
  }

  lemma {:induction false} EncodingChains(p: Bytes, at: nat, end: nat, fs: seq<Extra>)
    requires at <= end <= |p|
    requires NoZip64(fs) && EncodeExtras(fs) == p[at..end]
    ensures ExtraChain(p, at, end)
    decreases |fs|
  {
    if fs == [] {
      assert |p[at..end]| == 0;
    } else {
      HeaderRead(p, at, end, fs[0], EncodeExtras(fs[1..]));
      hide EncodeExtras, U16;
      EncodingChains(p, at + 4 + |fs[0].data|, end, fs[1..]);
    }
  }

  /** Bytes that start with an encoded field read as that field, and go on with the rest. */
  lemma HeaderRead(p: Bytes, at: nat, end: nat, f: Extra, rest: Bytes)
    requires at <= end <= |p| && Encodable(f)
    requires p[at..end] == Le16(f.id) + Le16(|f.data|) + f.data + rest
    ensures at + 4 + |f.data| <= end && U16(p, at) == f.id && U16(p, at + 2) == |f.data|
    ensures p[at + 4 + |f.data|..end] == rest
  {
    var raw := p[at..end];
    assert raw[0] == p[at] && raw[1] == p[at + 1] && raw[2] == p[at + 2] && raw[3] == p[at + 3];
    hide Le16;
    assert p[at + 4 + |f.data|..end] == raw[4 + |f.data|..];
  }

  /** Walk the extra fields of `p[start..start + length]`. */
  method CheckExtras(p: Bytes, start: nat, length: nat) returns (ok: bool)
    ensures ok <==> start + length <= |p| && ExtrasWellFormed(p[start..start + length])
  {
    var end := start + length;
    if end > |p| {
      return false;
    }
    var cursor := start;
    ok := true;
    while cursor < end && ok
      invariant start <= cursor <= end
      invariant ok ==> (ExtraChain(p, start, end) <==> ExtraChain(p, cursor, end))
      invariant !ok ==> !ExtraChain(p, start, end)
      decreases end - cursor, ok
    {
      if cursor + 4 > end || cursor + 4 + U16(p, cursor + 2) > end || U16(p, cursor) == 1 {
        ok := false;
      } else {
        cursor := cursor + 4 + U16(p, cursor + 2);
      }
    }
    if ok {
      var _ := ChainEncodes(p, start, end);
    } else {
      forall fs: seq<Extra> | NoZip64(fs)
        ensures EncodeExtras(fs) != p[start..end]
      {
        if EncodeExtras(fs) == p[start..end] {
          EncodingChains(p, start, end, fs);
        }
      }
    }
  }
}
