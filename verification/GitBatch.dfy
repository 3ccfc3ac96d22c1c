/**
 The reader of `git cat-file --batch` output. Each record is a header line -- object id, kind and
 size -- then the blob, then a newline. The reader accepts exactly the outputs that are such a
 record per requested object, and nothing before, between or after.
 */
module GitBatch {
  import opened Basics

  const NL: Byte := 0x0a
  const SP: Byte := 0x20
  const BLOB: Bytes := [0x62, 0x6c, 0x6f, 0x62]

  /** Where `b` first occurs, or the length when it does not. */
  function IndexOf(s: Bytes, b: Byte): (i: nat)
    ensures i <= |s| && (i < |s| ==> s[i] == b)
    ensures forall k | 0 <= k < i :: s[k] != b
  {
    if s == [] || s[0] == b then 0 else 1 + IndexOf(s[1..], b)
  }

  /** `bytes.split(b" ")`. */
  function Split(s: Bytes): (parts: seq<Bytes>)
    ensures parts != []
  {
    var i := IndexOf(s, SP);
    if i == |s| then [s] else [s[..i]] + Split(s[i + 1..])
  }

  predicate Clean(s: Bytes) {
    SP !in s && NL !in s
  }

  /******* Python's int() on bytes, and decimal printing *******/

  predicate IsDigit(b: Byte) {
    0x30 <= b <= 0x39
  }

  predicate IsSpace(b: Byte) {
    b == 0x20 || 0x09 <= b <= 0x0d
  }

  /** Digits, with single underscores allowed between them. */
  function Digits(s: Bytes): Option<nat> {
    if s == [] || !IsDigit(s[|s| - 1]) then None else
    var d := s[|s| - 1] as nat - 0x30;
    var front := s[..|s| - 1];
    if front == [] then Some(d) else
    var body := if front[|front| - 1] == 0x5f then front[..|front| - 1] else front;
    match Digits(body)
    case None => None
    case Some(v) => Some(10 * v + d)
  }

  function TrimLeft(s: Bytes): Bytes {
    if s != [] && IsSpace(s[0]) then TrimLeft(s[1..]) else s
  }

  function TrimRight(s: Bytes): Bytes {
    if s != [] && IsSpace(s[|s| - 1]) then TrimRight(s[..|s| - 1]) else s
  }

  /** How many digits a text has; the interpreter refuses to convert more than the maximum. */
  function DigitCount(s: Bytes): nat {
    if s == [] then 0 else DigitCount(s[..|s| - 1]) + if IsDigit(s[|s| - 1]) then 1 else 0
  }

  const MAX_STR_DIGITS: nat := 4300

  function Unsigned(s: Bytes): Option<nat> {
    if DigitCount(s) > MAX_STR_DIGITS then None else Digits(s)
  }

  function PyInt(s: Bytes): Option<int> {
    var t := TrimRight(TrimLeft(s));
    if t != [] && (t[0] == 0x2b || t[0] == 0x2d) then
      match Unsigned(t[1..])
      case None => None
      case Some(v) => var signed: int := if t[0] == 0x2d then -(v as int) else v; Some(signed)
    else
      match Unsigned(t)
      case None => None
      case Some(v) => Some(v)
  }

  function Decimal(n: nat): (s: Bytes)
    ensures s != [] && forall i | 0 <= i < |s| :: IsDigit(s[i])
  {
    if n < 10 then [(0x30 + n) as Byte] else Decimal(n / 10) + [(0x30 + n % 10) as Byte]
  }

  lemma {:induction false} DigitsOfDecimal(n: nat)
    ensures Digits(Decimal(n)) == Some(n)
  {
    var s := Decimal(n);
    if n >= 10 {
      DigitsOfDecimal(n / 10);
      assert s[..|s| - 1] == Decimal(n / 10);
    }
  }

  lemma {:induction false} AllDigits(s: Bytes)
    requires forall i | 0 <= i < |s| :: IsDigit(s[i])
    ensures DigitCount(s) == |s|
  {
    if s != [] { AllDigits(s[..|s| - 1]); }
  }

  /** A size prints with few enough digits to be read back. */
  predicate Printable(n: nat) {
    |Decimal(n)| <= MAX_STR_DIGITS
  }

  lemma IntOfDecimal(n: nat)
    ensures PyInt(Decimal(n)) == (if Printable(n) then Some(n) else None) && Clean(Decimal(n))
  {
    DigitsOfDecimal(n);
    AllDigits(Decimal(n));
  }

  /******* Reading one record *******/

  /** The blob of the first record of `rest`, and what follows the record. */
  function NextRecord(rest: Bytes, oid: Bytes): (r: Option<(Bytes, Bytes)>)
    ensures r.Some? ==> |r.value.1| < |rest|
  {
    var eol := IndexOf(rest, NL);
    if eol == |rest| then None else
    var header := Split(rest[..eol]);
    if |header| != 3 then None else
    match PyInt(header[2])
    case None => None
    case Some(size) =>
      if header[0] != oid || header[1] != BLOB || size < 0
         || eol + 1 + size >= |rest| || rest[eol + 1 + size] != NL
      then None
      else Some((rest[eol + 1..eol + 1 + size], rest[eol + 2 + size..]))
  }

  /** The whole output, one record for each requested object. */
  function Parse(rest: Bytes, oids: seq<Bytes>): Option<seq<Bytes>> {
    if oids == [] then (if rest == [] then Some([]) else None) else
    match NextRecord(rest, oids[0])
    case None => None
    case Some((blob, after)) =>
      match Parse(after, oids[1..])
      case None => None
      case Some(blobs) => Some([blob] + blobs)
  }

  lemma IndexInSuffix(raw: Bytes, offset: nat, b: Byte, i: nat)
    requires offset <= i <= |raw| && (i < |raw| ==> raw[i] == b)
    requires forall k | offset <= k < i :: raw[k] != b
    ensures IndexOf(raw[offset..], b) == i - offset
  {
    var s, j := raw[offset..], IndexOf(raw[offset..], b);
    assert i < |raw| ==> s[i - offset] == b;
    assert j < |s| ==> raw[offset + j] == b;
  }

  /** One record at `offset`: where its blob starts and ends, the terminating newline being at `end`. */
  method ReadRecord(raw: Bytes, offset: nat, oid: Bytes) returns (ok: bool, start: nat, end: nat)
    requires offset <= |raw|
    ensures ok ==> offset <= start <= end < |raw|
    ensures NextRecord(raw[offset..], oid) == if ok then Some((raw[start..end], raw[end + 1..])) else None
  {
    hide Split, PyInt;
    ghost var rest := raw[offset..];
    ok, start, end := false, 0, 0;
    var eol := offset;
    while eol < |raw| && raw[eol] != NL
      invariant offset <= eol <= |raw|
      invariant forall k | offset <= k < eol :: raw[k] != NL
    {
      eol := eol + 1;
    }
    IndexInSuffix(raw, offset, NL, eol);
    if eol == |raw| {
      return;
    }
    var header := Split(raw[offset..eol]);
    assert rest[..eol - offset] == raw[offset..eol];
    if |header| != 3 {
      return;
    }
    var size := PyInt(header[2]);
    if size.None? || header[0] != oid || header[1] != BLOB || size.value < 0 {
      return;
    }
    if eol + 1 + size.value >= |raw| || raw[eol + 1 + size.value] != NL {
      return;
    }
    ok, start, end := true, eol + 1, eol + 1 + size.value;
    SliceOfTail(raw, offset, start, end);
  }

  lemma SliceOfTail(raw: Bytes, offset: nat, start: nat, end: nat)
    requires offset <= start <= end < |raw|
    ensures raw[offset..][start - offset..end - offset] == raw[start..end]
    ensures raw[offset..][end + 1 - offset..] == raw[end + 1..]
  {
  }

  /** `_read_blobs`, moving an offset over the output. */
  method ReadBlobs(raw: Bytes, oids: seq<Bytes>) returns (result: Option<seq<Bytes>>)
    ensures result == Parse(raw, oids)
  {
    hide NextRecord;
    var offset := 0;
    var blobs: seq<Bytes> := [];
    assert raw[0..] == raw && oids[0..] == oids;
    assert forall more: seq<Bytes> :: [] + more == more;
    for i := 0 to |oids|
      invariant offset <= |raw|
      invariant Parse(raw, oids) ==
        match Parse(raw[offset..], oids[i..]) case None => None case Some(more) => Some(blobs + more)
    {
      assert oids[i..][0] == oids[i] && oids[i..][1..] == oids[i + 1..];
      var ok, start, end := ReadRecord(raw, offset, oids[i]);
      if !ok {
        return None;
      }
      assert forall more: seq<Bytes> :: blobs + ([raw[start..end]] + more) == blobs + [raw[start..end]] + more;
      blobs := blobs + [raw[start..end]];
      offset := end + 1;
    }
    assert oids[|oids|..] == [] && blobs + [] == blobs;
    assert |raw[offset..]| == |raw| - offset;
    if offset != |raw| {
      return None;
    }
    result := Some(blobs);
  }

  /******* What is accepted *******/

  /** Records with the given size texts. */
  function Print(oids: seq<Bytes>, sizes: seq<Bytes>, blobs: seq<Bytes>): Bytes
    requires |oids| == |sizes| == |blobs|
  {
    if oids == [] then [] else
    oids[0] + [SP] + BLOB + [SP] + sizes[0] + [NL] + blobs[0] + [NL] + Print(oids[1..], sizes[1..], blobs[1..])
  }

  /** Each size text is one word that reads as the blob's length. */
  ghost predicate SizesFit(sizes: seq<Bytes>, blobs: seq<Bytes>) {
    |sizes| == |blobs| &&
    forall i | 0 <= i < |sizes| :: Clean(sizes[i]) && PyInt(sizes[i]) == Some(|blobs[i]|)
  }

  lemma SplitWord(s: Bytes, rest: Bytes)
    requires SP !in s
    ensures Split(s + [SP] + rest) == [s] + Split(rest)
    ensures Split(s) == [s]
  {
    var t := s + [SP] + rest;
    assert t[|s|] == SP && forall k | 0 <= k < |s| :: t[k] == s[k];
    assert IndexOf(t, SP) == |s|;
    assert t[..|s|] == s && t[|s| + 1..] == rest;
  }

  lemma HeaderSplits(oid: Bytes, size: Bytes)
    requires Clean(oid) && Clean(size)
    ensures var header := oid + [SP] + BLOB + [SP] + size; Split(header) == [oid, BLOB, size] && NL !in header
  {
    hide Split, PyInt;
    var header := oid + [SP] + BLOB + [SP] + size;
    assert header == oid + [SP] + (BLOB + [SP] + size);
    SplitWord(oid, BLOB + [SP] + size);
    SplitWord(BLOB, size);
    SplitWord(size, []);
    assert [oid] + ([BLOB] + [size]) == [oid, BLOB, size];
  }

  lemma FirstLine(line: Bytes, rest: Bytes)
    requires NL !in line
    ensures IndexOf(line + [NL] + rest, NL) == |line| && (line + [NL] + rest)[..|line|] == line
  {
    var s := line + [NL] + rest;
    assert s[|line|] == NL && forall k | 0 <= k < |line| :: s[k] == line[k];
  }

  lemma RecordReads(oid: Bytes, size: Bytes, blob: Bytes, tail: Bytes)
    requires Clean(oid) && Clean(size) && PyInt(size) == Some(|blob|)
    ensures NextRecord(oid + [SP] + BLOB + [SP] + size + [NL] + blob + [NL] + tail, oid) == Some((blob, tail))
  {
    hide Split, PyInt;
    var header := oid + [SP] + BLOB + [SP] + size;
    var body := blob + [NL] + tail;
    var rest := header + [NL] + body;
    assert rest == oid + [SP] + BLOB + [SP] + size + [NL] + blob + [NL] + tail;
    HeaderSplits(oid, size);
    FirstLine(header, body);
    var start := |header| + 1;
    assert rest[start..] == body;
    assert rest[start..start + |blob|] == body[..|blob|] == blob && rest[start + |blob|] == body[|blob|] == NL;
    assert rest[start + |blob| + 1..] == body[|blob| + 1..] == tail;
  }

  lemma {:induction false} PrintParses(oids: seq<Bytes>, sizes: seq<Bytes>, blobs: seq<Bytes>)
    requires |oids| == |blobs| && SizesFit(sizes, blobs)
    requires forall i | 0 <= i < |oids| :: Clean(oids[i])
    ensures Parse(Print(oids, sizes, blobs), oids) == Some(blobs)
  {
    if oids == [] {
    } else {
      PrintParses(oids[1..], sizes[1..], blobs[1..]);
      RecordReads(oids[0], sizes[0], blobs[0], Print(oids[1..], sizes[1..], blobs[1..]));
      assert blobs == [blobs[0]] + blobs[1..];
    }
  }

  lemma SplitStep(s: Bytes)
    ensures SP !in s[..IndexOf(s, SP)]
    ensures IndexOf(s, SP) == |s| ==> Split(s) == [s]
    ensures IndexOf(s, SP) < |s| ==> Split(s) == [s[..IndexOf(s, SP)]] + Split(s[IndexOf(s, SP) + 1..])
  {
  }

  lemma JoinAt(s: Bytes, i: nat)
    requires i < |s| && s[i] == SP
    ensures s == s[..i] + [SP] + s[i + 1..]
  {
  }

  lemma SplitJoins(s: Bytes)
    requires |Split(s)| == 3
    ensures var h := Split(s);
      s == h[0] + [SP] + h[1] + [SP] + h[2] && SP !in h[0] && SP !in h[1] && SP !in h[2]
  {
    hide Split, IndexOf;
    SplitStep(s);
    var i := IndexOf(s, SP);
    var t := s[i + 1..];
    assert Split(s) == [s[..i]] + Split(t);
    PairJoins(t);
    JoinAt(s, i);
    Reassociate(s[..i] + [SP], Split(t)[0], [SP], Split(t)[1]);
  }

  lemma PairJoins(t: Bytes)
    requires |Split(t)| == 2
    ensures t == Split(t)[0] + [SP] + Split(t)[1] && SP !in Split(t)[0] && SP !in Split(t)[1]
  {
    hide Split, IndexOf;
    SplitStep(t);
    var j := IndexOf(t, SP);
    var u := t[j + 1..];
    assert Split(t) == [t[..j]] + Split(u);
    AloneIsWhole(u);
    JoinAt(t, j);
  }

  lemma Reassociate(a: Bytes, b: Bytes, c: Bytes, d: Bytes)
    ensures a + (b + c + d) == a + b + c + d
  {
  }

  lemma AloneIsWhole(u: Bytes)
    requires |Split(u)| == 1
    ensures Split(u) == [u] && SP !in u
  {
    SplitStep(u);
    assert u[..|u|] == u;
  }

  /** The third word of the first line. */
  function SizeText(rest: Bytes): Bytes {
    var header := Split(rest[..IndexOf(rest, NL)]);
    if |header| == 3 then header[2] else []
  }

  lemma ReadRecordPrints(rest: Bytes, oid: Bytes)
    requires NextRecord(rest, oid).Some?
    ensures var size := SizeText(rest);
      Clean(size) && PyInt(size) == Some(|NextRecord(rest, oid).value.0|)
    ensures var (blob, tail) := NextRecord(rest, oid).value;
      rest == oid + [SP] + BLOB + [SP] + SizeText(rest) + [NL] + blob + [NL] + tail
  {
    hide PyInt, Split;
    var eol := IndexOf(rest, NL);
    var header := rest[..eol];
    SplitJoins(header);
    var h := Split(header);
    var (blob, tail) := NextRecord(rest, oid).value;
    assert forall b | b in h[2] :: b in header;
    assert rest == header + [NL] + blob + [NL] + tail;
  }

  lemma {:induction false} ParsePrints(rest: Bytes, oids: seq<Bytes>) returns (sizes: seq<Bytes>)
    requires Parse(rest, oids).Some?
    ensures var blobs := Parse(rest, oids).value;
      |oids| == |blobs| && SizesFit(sizes, blobs) && rest == Print(oids, sizes, blobs)
  {
    if oids == [] {
      sizes := [];
    } else {
      var (blob, after) := NextRecord(rest, oids[0]).value;
      var more := ParsePrints(after, oids[1..]);
      ReadRecordPrints(rest, oids[0]);
      sizes := [SizeText(rest)] + more;
      assert sizes[1..] == more;
      assert Parse(rest, oids).value == [blob] + Parse(after, oids[1..]).value;
      assert Parse(rest, oids).value[1..] == Parse(after, oids[1..]).value;
    }
  }

  /**
   Exactly what is accepted: the printed records of the returned blobs, under some spelling of
   their sizes that reads back as the blob lengths.
   */
  lemma AcceptedExactly(raw: Bytes, oids: seq<Bytes>, blobs: seq<Bytes>)
    requires forall i | 0 <= i < |oids| :: Clean(oids[i])
    ensures Parse(raw, oids) == Some(blobs) <==>
      |oids| == |blobs| && exists sizes :: SizesFit(sizes, blobs) && raw == Print(oids, sizes, blobs)
  {
    if Parse(raw, oids) == Some(blobs) {
      var sizes := ParsePrints(raw, oids);
    }
    if |oids| == |blobs| && exists sizes :: SizesFit(sizes, blobs) && raw == Print(oids, sizes, blobs) {
      var sizes :| SizesFit(sizes, blobs) && raw == Print(oids, sizes, blobs);
      PrintParses(oids, sizes, blobs);
    }
  }

  /** Git's own output: sizes in decimal. */
  function Batch(oids: seq<Bytes>, blobs: seq<Bytes>): Bytes
    requires |oids| == |blobs|
  {
    Print(oids, DecimalSizes(blobs), blobs)
  }

  lemma RecordExtends(rest: Bytes, oid: Bytes, more: Bytes)
    requires NextRecord(rest, oid).Some? && Clean(oid)
    ensures NextRecord(rest + more, oid) == Some((NextRecord(rest, oid).value.0, NextRecord(rest, oid).value.1 + more))
  {
    ReadRecordPrints(rest, oid);
    var size := SizeText(rest);
    var (blob, tail) := NextRecord(rest, oid).value;
    RecordReads(oid, size, blob, tail + more);
    assert rest + more == oid + [SP] + BLOB + [SP] + size + [NL] + blob + [NL] + (tail + more);
  }

  /** Nothing can follow, or be missing from, an accepted output. */
  lemma {:induction false} TrailingRefused(rest: Bytes, oids: seq<Bytes>, more: Bytes)
    requires Parse(rest, oids).Some? && more != [] && forall i | 0 <= i < |oids| :: Clean(oids[i])
    ensures Parse(rest + more, oids) == None
  {
    if oids == [] {
      assert |rest + more| == |more|;
    } else {
      RecordExtends(rest, oids[0], more);
      TrailingRefused(NextRecord(rest, oids[0]).value.1, oids[1..], more);
    }
  }

  /** A record whose size text does not read as a number is refused. */
  lemma UnreadableSize(oid: Bytes, size: Bytes, body: Bytes)
    requires Clean(oid) && Clean(size) && PyInt(size).None?
    ensures NextRecord(oid + [SP] + BLOB + [SP] + size + [NL] + body, oid) == None
  {
    hide Split, PyInt;
    var header := oid + [SP] + BLOB + [SP] + size;
    assert header + [NL] + body == oid + [SP] + BLOB + [SP] + size + [NL] + body;
    HeaderSplits(oid, size);
    FirstLine(header, body);
  }

  /** Each size text reads as the blob's length or not at all, and one does not. */
  ghost predicate SomeUnreadable(sizes: seq<Bytes>, blobs: seq<Bytes>) {
    && |sizes| == |blobs|
    && (forall i | 0 <= i < |sizes| :: Clean(sizes[i]) && PyInt(sizes[i]) in {None, Some(|blobs[i]|)})
    && exists i | 0 <= i < |sizes| :: PyInt(sizes[i]).None?
  }

  /** With an unreadable size, neither the printed output nor any prefix of it is accepted. */
  lemma {:induction false} UnreadableRefused(
    oids: seq<Bytes>, sizes: seq<Bytes>, blobs: seq<Bytes>, prefix: Bytes, more: Bytes)
    requires |oids| == |blobs| && SomeUnreadable(sizes, blobs) && forall i | 0 <= i < |oids| :: Clean(oids[i])
    requires prefix + more == Print(oids, sizes, blobs)
    ensures Parse(prefix, oids) == None
    decreases |oids|
  {
    hide PyInt, NextRecord;
    var full, rest := prefix + more, Print(oids[1..], sizes[1..], blobs[1..]);
    if NextRecord(prefix, oids[0]).Some? {
      RecordExtends(prefix, oids[0], more);
      if PyInt(sizes[0]).None? {
        Regrouped(oids[0] + [SP] + BLOB + [SP] + sizes[0] + [NL], blobs[0], rest);
        UnreadableSize(oids[0], sizes[0], blobs[0] + [NL] + rest);
      } else {
        RecordReads(oids[0], sizes[0], blobs[0], rest);
        UnreadableRefused(oids[1..], sizes[1..], blobs[1..], NextRecord(prefix, oids[0]).value.1, more);
      }
    }
  }

  lemma Regrouped(head: Bytes, blob: Bytes, rest: Bytes)
    ensures head + blob + [NL] + rest == head + (blob + [NL] + rest)
  {
  }

  function DecimalSizes(blobs: seq<Bytes>): seq<Bytes> {
    seq(|blobs|, i requires 0 <= i < |blobs| => Decimal(|blobs[i]|))
  }

  predicate AllPrintable(blobs: seq<Bytes>) {
    forall i | 0 <= i < |blobs| :: Printable(|blobs[i]|)
  }

  lemma SizesRead(blobs: seq<Bytes>)
    ensures AllPrintable(blobs) ==> SizesFit(DecimalSizes(blobs), blobs)
    ensures !AllPrintable(blobs) ==> SomeUnreadable(DecimalSizes(blobs), blobs)
  {
    hide PyInt, Printable;
    var sizes := DecimalSizes(blobs);
    forall i | 0 <= i < |sizes|
      ensures Clean(sizes[i]) && PyInt(sizes[i]) == if Printable(|blobs[i]|) then Some(|blobs[i]|) else None
    {
      IntOfDecimal(|blobs[i]|);
    }
  }

  /**
   Round trip, whatever bytes the blobs hold: the printed records read back as the blobs exactly
   when every length has at most 4300 digits, and are refused otherwise.
   */
  lemma BatchRoundTrip(oids: seq<Bytes>, blobs: seq<Bytes>)
    requires |oids| == |blobs| && forall i | 0 <= i < |oids| :: Clean(oids[i])
    ensures Parse(Batch(oids, blobs), oids) == if AllPrintable(blobs) then Some(blobs) else None
  {
    SizesRead(blobs);
    if AllPrintable(blobs) {
      PrintParses(oids, DecimalSizes(blobs), blobs);
    } else {
      var full := Batch(oids, blobs);
      assert full + [] == full;
      UnreadableRefused(oids, DecimalSizes(blobs), blobs, full, []);
    }
  }

  lemma TruncatedRefused(oids: seq<Bytes>, blobs: seq<Bytes>, k: nat)
    requires |oids| == |blobs| && forall i | 0 <= i < |oids| :: Clean(oids[i])
    requires k < |Batch(oids, blobs)|
    ensures Parse(Batch(oids, blobs)[..k], oids) == None
  {
    var full := Batch(oids, blobs);
    assert full == full[..k] + full[k..];
    if !AllPrintable(blobs) {
      SizesRead(blobs);
      UnreadableRefused(oids, DecimalSizes(blobs), blobs, full[..k], full[k..]);
    } else {
      BatchRoundTrip(oids, blobs);
      if Parse(full[..k], oids).Some? {
        TrailingRefused(full[..k], oids, full[k..]);
      }
    }
  }
}
