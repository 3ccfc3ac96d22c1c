/** The source closure: a length-framed byte stream over the tree entries that are not outputs. */
module SourceClosure {
  import opened Basics

  /** A tree entry with its blob; the mode is 100755 when `executable`, otherwise 100644. */
  datatype TreeEntry = TreeEntry(path: Bytes, executable: bool, blob: Bytes)

  const WORD: nat := 0x1_0000_0000_0000_0000

  function Mode(executable: bool): Bytes {
    [0x31, 0x30, 0x30] + if executable then [0x37, 0x35, 0x35] else [0x36, 0x34, 0x34]
  }

  /** `n` in `k` big-endian bytes. */
  function BigEndian(n: nat, k: nat): (s: Bytes)
    ensures |s| == k
  {
    if k == 0 then [] else BigEndian(n / 0x100, k - 1) + [(n % 0x100) as Byte]
  }

  function Power(k: nat): nat {
    if k == 0 then 1 else 0x100 * Power(k - 1)
  }

  lemma {:induction false} BigEndianInjective(a: nat, b: nat, k: nat)
    requires a < Power(k) && b < Power(k) && BigEndian(a, k) == BigEndian(b, k)
    ensures a == b
  {
    if k > 0 {
      var x, y := BigEndian(a, k), BigEndian(b, k);
      assert x[..k - 1] == BigEndian(a / 0x100, k - 1) && y[..k - 1] == BigEndian(b / 0x100, k - 1);
      assert x[k - 1] == y[k - 1];
      BigEndianInjective(a / 0x100, b / 0x100, k - 1);
    }
  }

  lemma WordIsPower()
    ensures Power(8) == WORD
  {
    assert Power(2) == 0x1_0000;
    assert Power(4) == 0x1_0000_0000;
    assert Power(6) == 0x1_0000_0000_0000;
  }

  /** The frame's two lengths fit the 64-bit fields. */
  predicate Encodable(e: TreeEntry) {
    |e.path| < WORD && |e.blob| < WORD
  }

  function Frame(e: TreeEntry): Bytes {
    Mode(e.executable) + [0] + BigEndian(|e.path|, 8) + e.path + BigEndian(|e.blob|, 8) + e.blob
  }

  function Stream(es: seq<TreeEntry>): Bytes {
    if es == [] then [] else Frame(es[0]) + Stream(es[1..])
  }

  /** An entry's contribution to the closure: itself, or nothing when it is an output. */
  function Kept(e: TreeEntry, excluded: TreeEntry -> bool): seq<TreeEntry> {
    if excluded(e) then [] else [e]
  }

  /** The entries that are not outputs. */
  function Included(es: seq<TreeEntry>, excluded: TreeEntry -> bool): (kept: seq<TreeEntry>)
    ensures forall e :: e in kept <==> e in es && !excluded(e)
  {
    if es == [] then []
    else Kept(es[0], excluded) + Included(es[1..], excluded)
  }

  lemma Assoc<T>(x: seq<T>, y: seq<T>, z: seq<T>)
    ensures x + (y + z) == (x + y) + z
  {
  }

  lemma HeadTail<T>(a: seq<T>, b: seq<T>)
    requires a != []
    ensures a == [a[0]] + a[1..] && a + b == [a[0]] + (a[1..] + b)
  {
  }

  lemma StreamStep(e: TreeEntry, es: seq<TreeEntry>)
    ensures Stream([e] + es) == Frame(e) + Stream(es)
  {
    assert ([e] + es)[1..] == es;
  }

  lemma {:induction false} StreamAppend(a: seq<TreeEntry>, b: seq<TreeEntry>)
    ensures Stream(a + b) == Stream(a) + Stream(b)
  {
    hide Frame;
    if a == [] {
      assert a + b == b;
    } else {
      hide Stream;
      var h, t := a[0], a[1..];
      HeadTail(a, b);
      StreamAppend(t, b);
      StreamStep(h, t);
      StreamStep(h, t + b);
      Assoc(Frame(h), Stream(t), Stream(b));
    }
  }

  lemma IncludedStep(e: TreeEntry, es: seq<TreeEntry>, excluded: TreeEntry -> bool)
    ensures Included([e] + es, excluded) == Kept(e, excluded) + Included(es, excluded)
  {
    assert ([e] + es)[1..] == es;
  }

  lemma {:induction false} IncludedAppend(a: seq<TreeEntry>, b: seq<TreeEntry>, excluded: TreeEntry -> bool)
    ensures Included(a + b, excluded) == Included(a, excluded) + Included(b, excluded)
  {
    if a == [] {
      assert a + b == b;
    } else {
      hide Included, Kept;
      var h, t := a[0], a[1..];
      HeadTail(a, b);
      IncludedAppend(t, b, excluded);
      IncludedStep(h, t, excluded);
      IncludedStep(h, t + b, excluded);
      Assoc(Kept(h, excluded), Included(t, excluded), Included(b, excluded));
    }
  }

  /** One more entry appends its frame, or nothing when it is an output. */
  lemma PreimageStep(es: seq<TreeEntry>, i: nat, excluded: TreeEntry -> bool)
    requires i < |es|
    ensures Stream(Included(es[..i + 1], excluded)) ==
      Stream(Included(es[..i], excluded)) + (if excluded(es[i]) then [] else Frame(es[i]))
  {
    assert es[..i + 1] == es[..i] + [es[i]];
    IncludedAppend(es[..i], [es[i]], excluded);
    StreamAppend(Included(es[..i], excluded), Included([es[i]], excluded));
    IncludedStep(es[i], [], excluded);
    StreamStep(es[i], []);
    assert [es[i]] + [] == [es[i]] && Frame(es[i]) + Stream([]) == Frame(es[i]);
  }

  lemma FrameAppends(s: Bytes, e: TreeEntry)
    ensures s + Mode(e.executable) + [0] + BigEndian(|e.path|, 8) + e.path + BigEndian(|e.blob|, 8) + e.blob
      == s + Frame(e)
  {
    hide Mode, BigEndian;
  }

  /** Accumulate the hash preimage entry by entry, skipping outputs. */
  method ClosurePreimage(header: Bytes, es: seq<TreeEntry>, excluded: TreeEntry -> bool) returns (stream: Bytes)
    ensures stream == header + Stream(Included(es, excluded))
  {
    hide Stream, Included, Frame, Mode, BigEndian;
    stream := header;
    assert Stream(Included(es[..0], excluded)) == [] by {
      NothingStreamed(es[..0], excluded);
    }
    for i := 0 to |es|
      invariant stream == header + Stream(Included(es[..i], excluded))
    {
      PreimageStep(es, i, excluded);
      if !excluded(es[i]) {
        ghost var before := stream;
        stream := stream + Mode(es[i].executable) + [0];
        stream := stream + BigEndian(|es[i].path|, 8) + es[i].path;
        stream := stream + BigEndian(|es[i].blob|, 8) + es[i].blob;
        FrameAppends(before, es[i]);
        Assoc(header, Stream(Included(es[..i], excluded)), Frame(es[i]));
      }
    }
    assert es[..|es|] == es;
  }

  lemma NothingStreamed(es: seq<TreeEntry>, excluded: TreeEntry -> bool)
    requires es == []
    ensures Stream(Included(es, excluded)) == []
  {
  }

  /******* Unique decodability *******/

  lemma SplitEqual(a: Bytes, b: Bytes, x: Bytes, y: Bytes)
    requires |a| == |b| && a + x == b + y
    ensures a == b && x == y
  {
    assert a == (a + x)[..|a|] && b == (b + y)[..|b|];
    assert x == (a + x)[|a|..] && y == (b + y)[|b|..];
  }

  /** Two framed strings that agree with what follows them agree piece by piece. */
  lemma LengthPrefixed(a: Bytes, b: Bytes, x: Bytes, y: Bytes)
    requires |a| < WORD && |b| < WORD
    requires BigEndian(|a|, 8) + (a + x) == BigEndian(|b|, 8) + (b + y)
    ensures a == b && x == y
  {
    SplitEqual(BigEndian(|a|, 8), BigEndian(|b|, 8), a + x, b + y);
    WordIsPower();
    BigEndianInjective(|a|, |b|, 8);
    SplitEqual(a, b, x, y);
  }

  lemma FrameShape(e: TreeEntry, rest: Bytes)
    ensures Frame(e) + rest == (Mode(e.executable) + [0]) +
      (BigEndian(|e.path|, 8) + (e.path + (BigEndian(|e.blob|, 8) + (e.blob + rest))))
  {
  }

  lemma FrameDecodes(d: TreeEntry, e: TreeEntry, x: Bytes, y: Bytes)
    requires Encodable(d) && Encodable(e) && Frame(d) + x == Frame(e) + y
    ensures d == e && x == y
  {
    hide BigEndian, Frame;
    FrameShape(d, x);
    FrameShape(e, y);
    var b, c := BigEndian(|d.blob|, 8) + (d.blob + x), BigEndian(|e.blob|, 8) + (e.blob + y);
    var p, q := Mode(d.executable) + [0], Mode(e.executable) + [0];
    SplitEqual(p, q, BigEndian(|d.path|, 8) + (d.path + b), BigEndian(|e.path|, 8) + (e.path + c));
    assert p[3] == q[3];
    LengthPrefixed(d.path, e.path, b, c);
    LengthPrefixed(d.blob, e.blob, x, y);
  }

  /** The stream has one reading: equal streams come from equal entry lists. */
  lemma {:induction false} StreamInjective(a: seq<TreeEntry>, b: seq<TreeEntry>)
    requires forall i | 0 <= i < |a| :: Encodable(a[i])
    requires forall i | 0 <= i < |b| :: Encodable(b[i])
    requires Stream(a) == Stream(b)
    ensures a == b
    decreases |a|
  {
    hide Frame;
    if a != [] { FrameNonEmpty(a[0]); }
    if b != [] { FrameNonEmpty(b[0]); }
    if a != [] && b != [] {
      FrameDecodes(a[0], b[0], Stream(a[1..]), Stream(b[1..]));
      StreamInjective(a[1..], b[1..]);
      assert a == [a[0]] + a[1..] && b == [b[0]] + b[1..];
    }
  }

  lemma FrameNonEmpty(e: TreeEntry)
    ensures |Frame(e)| >= 7
  {
  }

  /** The closure's content: path to mode and bytes. */
  function Content(es: seq<TreeEntry>): map<Bytes, (bool, Bytes)> {
    if es == [] then map[] else Content(es[1..])[es[0].path := (es[0].executable, es[0].blob)]
  }

  /** Equal preimages give the same map from path to mode and bytes over the included entries. */
  lemma PreimageDeterminesContent(
    header: Bytes, a: seq<TreeEntry>, b: seq<TreeEntry>, skipA: TreeEntry -> bool, skipB: TreeEntry -> bool)
    requires forall i | 0 <= i < |a| :: Encodable(a[i])
    requires forall i | 0 <= i < |b| :: Encodable(b[i])
    requires header + Stream(Included(a, skipA)) == header + Stream(Included(b, skipB))
    ensures Included(a, skipA) == Included(b, skipB)
    ensures Content(Included(a, skipA)) == Content(Included(b, skipB))
  {
    var x, y := Included(a, skipA), Included(b, skipB);
    SplitEqual(header, header, Stream(x), Stream(y));
    forall i | 0 <= i < |x|
      ensures Encodable(x[i])
    {
      assert x[i] in a;
    }
    forall i | 0 <= i < |y|
      ensures Encodable(y[i])
    {
      assert y[i] in b;
    }
    StreamInjective(x, y);
  }
}
