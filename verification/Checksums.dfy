/** The checksum index: one `digest  path` line per file in name order, and the reader that undoes it. */
module Checksums {
  import opened Basics
  import Ordering

  type Name = string

  type Files = map<Name, Raw>

  /** SHA-256 in lower-case hexadecimal. */
  type Hash = Raw -> string

  predicate Hex(c: char) { '0' <= c <= '9' || 'a' <= c <= 'f' }

  predicate Hex64(s: string) { |s| == 64 && forall i | 0 <= i < |s| :: Hex(s[i]) }

  ghost predicate HashOk(hash: Hash) { forall r :: Hex64(hash(r)) }

  /******* Safe names *******/

  predicate NameChar(c: char) {
    'A' <= c <= 'Z' || 'a' <= c <= 'z' || '0' <= c <= '9' || c == '_' || c == '.' || c == '-'
  }

  /** The parts of a name between slashes; never empty. */
  function Components(s: Name): (parts: seq<string>)
    ensures parts != []
  {
    if s == "" then [""]
    else
      var rest := Components(s[1..]);
      if s[0] == '/' then [""] + rest else [[s[0]] + rest[0]] + rest[1..]
  }

  predicate Safe(s: Name) {
    forall part | part in Components(s) :: part != "" && NameChars(part)
  }

  predicate SafeChar(c: char) { NameChar(c) || c == '/' }

  predicate NameChars(part: string) {
    forall i | 0 <= i < |part| :: NameChar(part[i])
  }

  lemma {:induction false} SafeChars(s: Name)
    requires forall part | part in Components(s) :: NameChars(part)
    ensures forall i | 0 <= i < |s| :: SafeChar(s[i])
  {
    if s != "" {
      FirstPart(s);
      hide NameChars, Components;
      SafeChars(s[1..]);
      assert s == [s[0]] + s[1..];
    }
  }

  /** Dropping the first character leaves every part made of name characters. */
  lemma FirstPart(s: Name)
    requires s != "" && forall part | part in Components(s) :: NameChars(part)
    ensures SafeChar(s[0]) && forall part | part in Components(s[1..]) :: NameChars(part)
  {
    var all, rest := Components(s), Components(s[1..]);
    assert all[0] in all;
    if s[0] == '/' {
      assert all[1..] == rest;
    } else {
      assert all[0][0] == s[0] && all[0][1..] == rest[0] && all[1..] == rest[1..];
      assert NameChars(rest[0]) by {
        assert forall i | 0 <= i < |rest[0]| :: rest[0][i] == all[0][i + 1];
      }
      assert rest == [rest[0]] + rest[1..];
    }
  }

  /******* Lines *******/

  /** Where ASCII text breaks into lines. */
  predicate Boundary(c: char) {
    c == '\n' || c == '\r' || c == 0x0b as char || c == 0x0c as char || 0x1c as char <= c <= 0x1e as char
  }

  function LineEnd(s: string): (n: nat)
    ensures n <= |s| && (forall i | 0 <= i < n :: !Boundary(s[i])) && (n < |s| ==> Boundary(s[n]))
  {
    if s == "" || Boundary(s[0]) then 0 else 1 + LineEnd(s[1..])
  }

  function Lines(s: string): seq<string> {
    var n := LineEnd(s);
    if s == "" then []
    else if n == |s| then [s]
    else if s[n] == '\r' && n + 1 < |s| && s[n + 1] == '\n' then [s[..n]] + Lines(s[n + 2..])
    else [s[..n]] + Lines(s[n + 1..])
  }

  lemma LinesStep(line: string, rest: string)
    requires forall i | 0 <= i < |line| :: !Boundary(line[i])
    ensures Lines(line + "\n" + rest) == [line] + Lines(rest)
  {
    var s := line + "\n" + rest;
    assert s[|line|] == '\n';
    assert forall i | 0 <= i < |line| :: s[i] == line[i];
    assert LineEnd(s) == |line|;
    assert s[..|line|] == line && s[|line| + 1..] == rest;
  }

  /******* The index *******/

  function Line(hash: Hash, files: Files, k: Name): string
    requires k in files
  {
    hash(files[k]) + "  " + k
  }

  function IndexText(hash: Hash, files: Files, ks: seq<Name>): string
    requires forall k | k in ks :: k in files
  {
    if ks == [] then "" else Line(hash, files, ks[0]) + "\n" + IndexText(hash, files, ks[1..])
  }

  datatype Entry = Entry(digest: string, name: Name)

  function ParseLine(s: string): Option<Entry> {
    if |s| > 66 && Hex64(s[..64]) && s[64] == ' ' && s[65] == ' ' && Safe(s[66..])
    then Some(Entry(s[..64], s[66..])) else None
  }

  /** None when some line is malformed. */
  function Entries(lines: seq<string>): Option<seq<Entry>> {
    if lines == [] then Some([])
    else
      match ParseLine(lines[0])
      case None => None
      case Some(e) => match Entries(lines[1..]) case None => None case Some(es) => Some([e] + es)
  }

  function EntriesOf(hash: Hash, files: Files, ks: seq<Name>): seq<Entry>
    requires forall k | k in ks :: k in files
  {
    if ks == [] then [] else [Entry(hash(files[ks[0]]), ks[0])] + EntriesOf(hash, files, ks[1..])
  }

  lemma LineParses(hash: Hash, files: Files, k: Name)
    requires HashOk(hash) && k in files && Safe(k)
    ensures ParseLine(Line(hash, files, k)) == Some(Entry(hash(files[k]), k))
    ensures forall i | 0 <= i < |Line(hash, files, k)| :: !Boundary(Line(hash, files, k)[i])
  {
    var s, h := Line(hash, files, k), hash(files[k]);
    assert Hex64(h);
    SafeNotEmpty(k);
    SafeChars(k);
    assert s[..64] == h && s[66..] == k && s[64] == ' ' && s[65] == ' ';
    hide Safe, Line;
    forall i | 0 <= i < |s|
      ensures !Boundary(s[i])
    {
      if i < 64 { assert s[i] == h[i] && Hex(h[i]); } else if i >= 66 { assert s[i] == k[i - 66]; }
    }
  }

  lemma SafeNotEmpty(k: Name)
    requires Safe(k)
    ensures k != ""
  {
    assert Components("")[0] == "";
    assert "" in Components("");
  }

  /** Reading the index back gives each file's digest and name, in order. */
  lemma {:induction false} IndexParses(hash: Hash, files: Files, ks: seq<Name>)
    requires HashOk(hash) && forall k | k in ks :: k in files && Safe(k)
    ensures Entries(Lines(IndexText(hash, files, ks))) == Some(EntriesOf(hash, files, ks))
  {
    if ks == [] {
      assert Lines("") == [];
    } else {
      var line, rest := Line(hash, files, ks[0]), IndexText(hash, files, ks[1..]);
      assert ks[0] in ks && forall k | k in ks[1..] :: k in ks;
      LineParses(hash, files, ks[0]);
      IndexParses(hash, files, ks[1..]);
      LinesStep(line, rest);
      hide Lines, Line, ParseLine, Safe;
      var lines := [line] + Lines(rest);
      assert lines[0] == line && lines[1..] == Lines(rest);
    }
  }

  /******* Name order *******/

  function ByName(): (Name, Name) -> bool {
    (a: Name, b: Name) => Ordering.Less(a, b)
  }

  lemma NamesOrdered(m: multiset<Name>)
    ensures Ordering.StrictWeak(ByName()) && Ordering.Distinguishes(ByName(), m)
  {
    hide Ordering.Less;
    forall a: Name, b: Name
      ensures ByName()(a, b) ==> !ByName()(b, a)
      ensures a != b ==> ByName()(a, b) || ByName()(b, a)
    {
      Ordering.LessTotal(a, b);
    }
    forall a: Name, b: Name, c: Name
      ensures ByName()(a, b) && ByName()(b, c) ==> ByName()(a, c)
      ensures !ByName()(a, b) && !ByName()(b, c) ==> !ByName()(a, c)
    {
      Ordering.LessTotal(a, b);
      Ordering.LessTotal(b, c);
      Ordering.LessTotal(a, c);
      if Ordering.Less(a, b) && Ordering.Less(b, c) { Ordering.LessTransitive(a, b, c); }
      if Ordering.Less(c, b) && Ordering.Less(b, a) { Ordering.LessTransitive(c, b, a); }
    }
  }

  ghost function AnyOrder(keys: set<Name>): (s: seq<Name>)
    ensures multiset(s) == multiset(keys)
  {
    if keys == {} then []
    else
      var k :| k in keys;
      assert multiset(keys) == multiset{k} + multiset(keys - {k});
      [k] + AnyOrder(keys - {k})
  }

  /** The names in ascending order. */
  ghost function Sorted(keys: set<Name>): seq<Name> {
    Ordering.Sort(ByName(), AnyOrder(keys))
  }

  /** However a set of names is enumerated, sorting gives the same list, which lists each name once. */
  lemma SortedIs(keys: set<Name>, order: seq<Name>, s: seq<Name>)
    requires multiset(order) == multiset(keys) && s == Ordering.Sort(ByName(), order)
    ensures s == Sorted(keys) && Ordering.Distinct(s) && forall k :: k in s <==> k in keys
  {
    NamesOrdered(multiset(keys));
    Ordering.SortCanonical(ByName(), order, AnyOrder(keys));
    Ordering.SortPermutes(ByName(), order);
    Ordering.Enumerates(s, keys);
  }

  lemma SortedLists(keys: set<Name>)
    ensures Ordering.Distinct(Sorted(keys)) && forall k :: k in Sorted(keys) <==> k in keys
  {
    SortedIs(keys, AnyOrder(keys), Sorted(keys));
  }

  /** The publisher's index of a file set. */
  ghost function Index(hash: Hash, files: Files): string {
    SortedLists(files.Keys);
    IndexText(hash, files, Sorted(files.Keys))
  }

  /** `order` lists the names in some order; the text does not depend on which. */
  method ChecksumBytes(hash: Hash, files: Files, order: seq<Name>) returns (text: string)
    requires multiset(order) == multiset(files.Keys)
    ensures text == Index(hash, files)
  {
    var ks := Ordering.Sort(ByName(), order);
    SortedIs(files.Keys, order, ks);
    text := JoinLines(hash, files, ks);
  }

  method JoinLines(hash: Hash, files: Files, ks: seq<Name>) returns (text: string)
    requires forall k | k in ks :: k in files
    ensures text == IndexText(hash, files, ks)
  {
    text := "";
    assert ks[0..] == ks;
    IndexEnd(hash, files, ks[|ks|..]);
    hide Line, IndexText;
    for i := 0 to |ks|
      invariant text + IndexText(hash, files, ks[i..]) == IndexText(hash, files, ks)
    {
      IndexStep(hash, files, ks, i, text);
      text := text + (Line(hash, files, ks[i]) + "\n");
    }
  }

  lemma IndexEnd(hash: Hash, files: Files, none: seq<Name>)
    requires none == []
    ensures IndexText(hash, files, none) == "" && forall s: string :: s + IndexText(hash, files, none) == s
  {
  }

  lemma IndexStep(hash: Hash, files: Files, ks: seq<Name>, i: nat, text: string)
    requires i < |ks| && forall k | k in ks :: k in files
    ensures (text + (Line(hash, files, ks[i]) + "\n")) + IndexText(hash, files, ks[i + 1..])
      == text + IndexText(hash, files, ks[i..])
  {
    assert ks[i..][1..] == ks[i + 1..];
  }

  /******* Reading and checking an index *******/

  function Names(es: seq<Entry>): seq<Name> {
    seq(|es|, i requires 0 <= i < |es| => es[i].name)
  }

  /** Parse the lines one by one; None at a malformed line or a repeated name. */
  method ReadEntries(lines: seq<string>) returns (r: Option<seq<Entry>>)
    ensures r.Some? <==> Entries(lines).Some? && Ordering.Distinct(Names(Entries(lines).value))
    ensures r.Some? ==> r == Entries(lines)
  {
    var es: seq<Entry>, names: set<Name> := [], {};
    StartReading(lines);
    hide Entries, ParseLine, Names, Ordering.Distinct, ReadSoFar;
    for i := 0 to |lines|
      invariant ReadSoFar(lines, i, es, names)
    {
      var e := ParseLine(lines[i]);
      ReadOneMore(lines, i, es, names, e);
      if e.None? || e.value.name in names {
        return None;
      }
      es, names := es + [e.value], names + {e.value.name};
    }
    DoneReading(lines, es, names);
    return Some(es);
  }

  /** The entries read are those before line `i`, with distinct names. */
  ghost predicate ReadSoFar(lines: seq<string>, i: nat, es: seq<Entry>, names: set<Name>) {
    && i <= |lines| && (Entries(lines).Some? <==> Entries(lines[i..]).Some?)
    && (Entries(lines).Some? ==> Entries(lines).value == es + Entries(lines[i..]).value)
    && Ordering.Distinct(Names(es)) && forall k :: k in names <==> k in Names(es)
  }

  lemma StartReading(lines: seq<string>)
    ensures ReadSoFar(lines, 0, [], {})
  {
    hide Entries;
    assert lines[0..] == lines;
    assert Names([]) == [];
    if Entries(lines).Some? { assert [] + Entries(lines).value == Entries(lines).value; }
  }

  lemma DoneReading(lines: seq<string>, es: seq<Entry>, names: set<Name>)
    requires ReadSoFar(lines, |lines|, es, names)
    ensures Entries(lines) == Some(es) && Ordering.Distinct(Names(es))
  {
    assert Entries(lines[|lines|..]) == Some([]);
    assert es + [] == es;
  }

  lemma ReadOneMore(lines: seq<string>, i: nat, es: seq<Entry>, names: set<Name>, e: Option<Entry>)
    requires i < |lines| && ReadSoFar(lines, i, es, names) && e == ParseLine(lines[i])
    ensures e.None? ==> Entries(lines).None?
    ensures e.Some? && e.value.name in names ==> Entries(lines).None? || !Ordering.Distinct(Names(Entries(lines).value))
    ensures e.Some? && e.value.name !in names ==> ReadSoFar(lines, i + 1, es + [e.value], names + {e.value.name})
  {
    EntriesStep(lines, i);
    hide Entries, ParseLine;
    if e.Some? {
      NamesStep(es, e.value, names);
      var later := Entries(lines[i + 1..]);
      if later.Some? {
        Regrouped(es, e.value, later.value);
        if e.value.name in names { RepeatedName(es, e.value, later.value); }
      }
      hide Names, Ordering.Distinct;
      assert later.Some? ==> Entries(lines).value == (es + [e.value]) + later.value;
    }
  }

  lemma Regrouped(es: seq<Entry>, e: Entry, later: seq<Entry>)
    ensures es + ([e] + later) == (es + [e]) + later
  {
  }

  lemma EntriesStep(lines: seq<string>, i: nat)
    requires i < |lines|
    ensures ParseLine(lines[i]).None? ==> Entries(lines[i..]).None?
    ensures ParseLine(lines[i]).Some? ==> (Entries(lines[i..]).Some? <==> Entries(lines[i + 1..]).Some?)
    ensures Entries(lines[i..]).Some? ==>
      Entries(lines[i..]).value == [ParseLine(lines[i]).value] + Entries(lines[i + 1..]).value
  {
    assert lines[i..][0] == lines[i] && lines[i..][1..] == lines[i + 1..];
    hide ParseLine;
  }

  lemma NamesStep(es: seq<Entry>, e: Entry, names: set<Name>)
    requires Ordering.Distinct(Names(es)) && forall k :: k in names <==> k in Names(es)
    ensures e.name !in names ==> Ordering.Distinct(Names(es + [e]))
    ensures forall k :: k in names + {e.name} <==> k in Names(es + [e])
  {
    assert Names(es + [e]) == Names(es) + [e.name];
  }

  lemma RepeatedName(es: seq<Entry>, e: Entry, later: seq<Entry>)
    requires e.name in Names(es)
    ensures !Ordering.Distinct(Names((es + [e]) + later))
  {
    var i :| 0 <= i < |es| && Names(es)[i] == e.name;
    var n := Names((es + [e]) + later);
    assert n[i] == n[|es|];
  }

  predicate Ascii(s: string) {
    forall i | 0 <= i < |s| :: s[i] < 0x80 as char
  }

  lemma AsciiJoins(a: string, b: string)
    requires Ascii(a) && Ascii(b)
    ensures Ascii(a + b)
  {
  }

  lemma LineAscii(hash: Hash, files: Files, k: Name)
    requires HashOk(hash) && k in files && Safe(k)
    ensures Ascii(Line(hash, files, k) + "\n")
  {
    var h := hash(files[k]);
    assert Hex64(h);
    SafeChars(k);
    hide Safe;
    AsciiJoins(h, "  ");
    AsciiJoins(h + "  ", k);
    AsciiJoins(Line(hash, files, k), "\n");
  }

  lemma {:induction false} IndexAscii(hash: Hash, files: Files, ks: seq<Name>)
    requires HashOk(hash) && forall k | k in ks :: k in files && Safe(k)
    ensures Ascii(IndexText(hash, files, ks))
  {
    if ks != [] {
      assert ks[0] in ks && forall x | x in ks[1..] :: x in ks;
      hide Safe, Line, Ascii;
      IndexAscii(hash, files, ks[1..]);
      LineAscii(hash, files, ks[0]);
      AsciiJoins(Line(hash, files, ks[0]) + "\n", IndexText(hash, files, ks[1..]));
    } else {
      hide Safe;
    }
  }

  lemma {:induction false} EntriesOfNames(hash: Hash, files: Files, ks: seq<Name>)
    requires forall k | k in ks :: k in files
    ensures Names(EntriesOf(hash, files, ks)) == ks
  {
    if ks != [] {
      EntriesOfNames(hash, files, ks[1..]);
      var rest := EntriesOf(hash, files, ks[1..]);
      assert Names([Entry(hash(files[ks[0]]), ks[0])] + rest) == [ks[0]] + Names(rest);
    }
  }

  lemma ParsedSafe(s: string)
    ensures ParseLine(s).Some? ==> Safe(ParseLine(s).value.name)
  {
    hide Safe, Hex64;
  }

  lemma NamesCons(e: Entry, es: seq<Entry>)
    ensures Names([e] + es) == [e.name] + Names(es)
  {
  }

  lemma {:induction false} EntriesSafe(lines: seq<string>)
    requires Entries(lines).Some?
    ensures forall k | k in Names(Entries(lines).value) :: Safe(k)
  {
    hide Safe, ParseLine;
    if lines != [] {
      EntriesSafe(lines[1..]);
      var e, rest := ParseLine(lines[0]).value, Entries(lines[1..]).value;
      ParsedSafe(lines[0]);
      NamesCons(e, rest);
      hide Names;
    }
  }

  /** The index is acceptable: every name is safe and the text is the publisher's. */
  ghost predicate IndexOk(hash: Hash, files: Files, raw: Raw) {
    (forall k | k in files :: Safe(k)) && raw == Index(hash, files)
  }

  /** What an acceptable index reads as. */
  lemma IndexReads(hash: Hash, files: Files, raw: Raw, ks: seq<Name>)
    requires HashOk(hash) && IndexOk(hash, files, raw) && ks == Sorted(files.Keys)
    requires forall k | k in ks :: k in files
    ensures Ascii(raw) && Entries(Lines(raw)) == Some(EntriesOf(hash, files, ks))
    ensures Names(EntriesOf(hash, files, ks)) == ks
  {
    hide Safe, Sorted, Lines, Entries;
    IndexAscii(hash, files, ks);
    IndexParses(hash, files, ks);
    EntriesOfNames(hash, files, ks);
  }

  /** Line by line: well-formed, no name twice, exactly the expected names, ascending; then byte for byte. */
  method CheckIndex(hash: Hash, files: Files, raw: Raw) returns (ok: bool)
    requires HashOk(hash)
    ensures ok <==> IndexOk(hash, files, raw)
  {
    if IndexOk(hash, files, raw) {
      SortedLists(files.Keys);
      IndexReads(hash, files, raw, Sorted(files.Keys));
      SortedAgain(files.Keys);
    }
    hide IndexOk, Entries, Lines, Names, EntriesOf;
    if !Ascii(raw) {
      return false;
    }
    var entries := ReadEntries(Lines(raw));
    if entries.None? {
      return false;
    }
    var names := Names(entries.value);
    if (set k | k in names) != files.Keys || names != Ordering.Sort(ByName(), names) {
      return false;
    }
    Ordering.DistinctEnumerates(names);
    var expected := ChecksumBytes(hash, files, names);
    EntriesSafe(Lines(raw));
    ok := raw == expected;
    Conclude(hash, files, raw, names);
  }

  lemma SortedAgain(keys: set<Name>)
    ensures Ordering.Sort(ByName(), Sorted(keys)) == Sorted(keys)
    ensures (set k | k in Sorted(keys)) == keys
  {
    Ordering.SortPermutes(ByName(), AnyOrder(keys));
    SortedIs(keys, Sorted(keys), Ordering.Sort(ByName(), Sorted(keys)));
  }

  lemma Conclude(hash: Hash, files: Files, raw: Raw, names: seq<Name>)
    requires (set k | k in names) == files.Keys && forall k | k in names :: Safe(k)
    ensures IndexOk(hash, files, raw) <==> raw == Index(hash, files)
  {
    hide Index, Safe;
    forall k | k in files
      ensures Safe(k)
    {
      assert k in set k | k in names;
    }
  }
}
