/** Archive member names in diagnostics: names too long once serialized are cut and tagged with their digest. */
module DiagnosticNames {

  const LIMIT: nat := 512

  /** `width` is the number of ASCII bytes one character takes inside a JSON string. */
  function Size(width: char -> nat, s: string): nat {
    if s == "" then 2 else Size(width, s[..|s| - 1]) + width(s[|s| - 1])
  }

  predicate Fits(width: char -> nat, s: string) {
    Size(width, s) <= LIMIT
  }

  /** `digest` is the SHA-256 of the name's UTF-8 bytes, in hexadecimal. */
  function Suffix(digest: string -> string, name: string): string {
    "...[utf8_sha256=" + digest(name) + "]"
  }

  /** The first `n` characters of a name, tagged. */
  function Cut(digest: string -> string, name: string, n: nat): string
    requires n <= |name|
  {
    name[..n] + Suffix(digest, name)
  }

  lemma {:induction false} SizeJoins(width: char -> nat, a: string, b: string)
    ensures Size(width, a + b) + 2 == Size(width, a) + Size(width, b)
  {
    if b == "" {
      assert a + b == a;
    } else {
      assert (a + b)[..|a + b| - 1] == a + b[..|b| - 1];
      SizeJoins(width, a, b[..|b| - 1]);
    }
  }

  /** A longer cut is no shorter once serialized. */
  lemma CutGrows(width: char -> nat, digest: string -> string, name: string, m: nat, n: nat)
    requires m <= n <= |name|
    ensures Size(width, Cut(digest, name, m)) <= Size(width, Cut(digest, name, n))
  {
    SizeJoins(width, name[..m], Suffix(digest, name));
    SizeJoins(width, name[..n], Suffix(digest, name));
    assert name[..n] == name[..m] + name[m..n];
    SizeJoins(width, name[..m], name[m..n]);
    SizeAtLeast(width, name[m..n]);
  }

  lemma {:induction false} SizeAtLeast(width: char -> nat, s: string)
    ensures Size(width, s) >= 2
  {
    if s != "" { SizeAtLeast(width, s[..|s| - 1]); }
  }

  /** `n` is the longest cut that fits, or nothing is kept because the tag alone does not fit. */
  ghost predicate Longest(width: char -> nat, digest: string -> string, name: string, n: nat) {
    && n <= |name| && (n > 0 ==> Fits(width, Cut(digest, name, n)))
    && forall m | n < m <= |name| :: !Fits(width, Cut(digest, name, m))
  }

  /** Binary search for the longest prefix that fits with its tag. */
  method DiagnosticMemberName(width: char -> nat, digest: string -> string, name: string)
    returns (r: string, ghost kept: nat)
    ensures Fits(width, name) ==> r == name
    ensures !Fits(width, name) ==> Longest(width, digest, name, kept) && r == Cut(digest, name, kept)
    ensures Fits(width, Suffix(digest, name)) ==> Fits(width, r)
  {
    kept := 0;
    if Fits(width, name) {
      return name, kept;
    }
    var low, high := 0, |name|;
    while low < high
      invariant 0 <= low <= high <= |name|
      invariant low > 0 ==> Fits(width, Cut(digest, name, low))
      invariant forall m | high < m <= |name| :: !Fits(width, Cut(digest, name, m))
    {
      var middle := (low + high + 1) / 2;
      if Fits(width, Cut(digest, name, middle)) {
        low := middle;
      } else {
        forall m | middle <= m <= |name|
          ensures !Fits(width, Cut(digest, name, m))
        {
          CutGrows(width, digest, name, middle, m);
        }
        high := middle - 1;
      }
    }
    r, kept := Cut(digest, name, low), low;
    assert low == 0 ==> r == Suffix(digest, name);
  }

  /** With a collision-free digest of fixed length, two shortened names that read alike are one name. */
  lemma ShortenedNamesDiffer(digest: string -> string, a: string, b: string, m: nat, n: nat)
    requires m <= |a| && n <= |b| && Cut(digest, a, m) == Cut(digest, b, n)
    requires |digest(a)| == |digest(b)| && (digest(a) == digest(b) ==> a == b)
    ensures a == b && m == n
  {
    var x, y := Suffix(digest, a), Suffix(digest, b);
    var c := Cut(digest, a, m);
    assert x == c[m..] && y == c[n..];
    assert digest(a) == x[16..|x| - 1] && digest(b) == y[16..|y| - 1];
  }
}
