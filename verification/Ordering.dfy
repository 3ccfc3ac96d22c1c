/** Stable sorting by a comparison, and when its result does not depend on the input order. */
module Ordering {

  /** A strict weak order: what comparing by a key gives. */
  ghost predicate StrictWeak<T(!new)>(lt: (T, T) -> bool) {
    && (forall x, y :: lt(x, y) ==> !lt(y, x))
    && (forall x, y, z :: lt(x, y) && lt(y, z) ==> lt(x, z))
    && (forall x, y, z :: !lt(x, y) && !lt(y, z) ==> !lt(x, z))
  }

  ghost predicate SortedBy<T>(lt: (T, T) -> bool, s: seq<T>) {
    forall i, j | 0 <= i < j < |s| :: !lt(s[j], s[i])
  }

  /** Different elements have different keys. */
  ghost predicate Distinguishes<T(!new)>(lt: (T, T) -> bool, m: multiset<T>) {
    forall x, y | x in m && y in m && x != y :: lt(x, y) || lt(y, x)
  }

  /** Insert after every element that does not exceed `x`. */
  function Insert<T>(lt: (T, T) -> bool, x: T, s: seq<T>): seq<T> {
    if s == [] then [x]
    else if lt(x, s[0]) then [x] + s
    else [s[0]] + Insert(lt, x, s[1..])
  }

  function Sort<T>(lt: (T, T) -> bool, s: seq<T>): seq<T> {
    if s == [] then [] else Insert(lt, s[|s| - 1], Sort(lt, s[..|s| - 1]))
  }

  lemma {:induction false} InsertPermutes<T>(lt: (T, T) -> bool, x: T, s: seq<T>)
    ensures multiset(Insert(lt, x, s)) == multiset(s) + multiset{x}
  {
    if s == [] {
    } else {
      assert s == [s[0]] + s[1..];
      if !lt(x, s[0]) {
        InsertPermutes(lt, x, s[1..]);
      }
    }
  }

  lemma {:induction false} SortPermutes<T>(lt: (T, T) -> bool, s: seq<T>)
    ensures multiset(Sort(lt, s)) == multiset(s)
  {
    if s == [] {
    } else {
      SortPermutes(lt, s[..|s| - 1]);
      InsertPermutes(lt, s[|s| - 1], Sort(lt, s[..|s| - 1]));
      assert s == s[..|s| - 1] + [s[|s| - 1]];
    }
  }

  lemma {:induction false} InsertSorts<T(!new)>(lt: (T, T) -> bool, x: T, s: seq<T>)
    requires StrictWeak(lt) && SortedBy(lt, s)
    ensures SortedBy(lt, Insert(lt, x, s))
  {
    if s == [] {
    } else if lt(x, s[0]) {
      forall j | 0 <= j < |s|
        ensures !lt(s[j], x)
      {
      }
    } else {
      InsertSorts(lt, x, s[1..]);
      InsertPermutes(lt, x, s[1..]);
      var r := Insert(lt, x, s[1..]);
      forall j | 0 <= j < |r|
        ensures !lt(r[j], s[0])
      {
        assert r[j] in multiset(r);
        assert r[j] == x || r[j] in s[1..];
      }
    }
  }

  lemma {:induction false} SortSorts<T(!new)>(lt: (T, T) -> bool, s: seq<T>)
    requires StrictWeak(lt)
    ensures SortedBy(lt, Sort(lt, s))
  {
    if s == [] {
    } else {
      SortSorts(lt, s[..|s| - 1]);
      InsertSorts(lt, s[|s| - 1], Sort(lt, s[..|s| - 1]));
    }
  }

  lemma SameHead<T(!new)>(lt: (T, T) -> bool, a: seq<T>, b: seq<T>)
    requires a != [] && b != [] && SortedBy(lt, a) && SortedBy(lt, b)
    requires multiset(a) == multiset(b) && Distinguishes(lt, multiset(a))
    ensures a[0] == b[0]
  {
    assert a[0] in multiset(b) && b[0] in multiset(a);
    assert a[0] in b && b[0] in a;
    var i :| 0 <= i < |b| && b[i] == a[0];
    var j :| 0 <= j < |a| && a[j] == b[0];
    assert 0 < i ==> !lt(b[i], b[0]);
    assert 0 < j ==> !lt(a[j], a[0]);
  }

  /** A multiset with distinct keys has one sorted arrangement. */
  lemma {:induction false} SortedUnique<T(!new)>(lt: (T, T) -> bool, a: seq<T>, b: seq<T>)
    requires SortedBy(lt, a) && SortedBy(lt, b)
    requires multiset(a) == multiset(b) && Distinguishes(lt, multiset(a))
    ensures a == b
    decreases |a|
  {
    assert |a| == |multiset(a)| == |multiset(b)| == |b|;
    if a == [] {
    } else {
      SameHead(lt, a, b);
      DropHead(a);
      DropHead(b);
      SortedUnique(lt, a[1..], b[1..]);
    }
  }

  lemma DropHead<T>(a: seq<T>)
    requires a != []
    ensures multiset(a[1..]) == multiset(a) - multiset{a[0]} && a == [a[0]] + a[1..]
  {
    assert a == [a[0]] + a[1..];
  }

  /** With distinct keys, sorting depends only on the elements, not on their order. */
  lemma SortCanonical<T(!new)>(lt: (T, T) -> bool, a: seq<T>, b: seq<T>)
    requires StrictWeak(lt) && multiset(a) == multiset(b) && Distinguishes(lt, multiset(a))
    ensures Sort(lt, a) == Sort(lt, b)
  {
    SortSorts(lt, a);
    SortSorts(lt, b);
    SortPermutes(lt, a);
    SortPermutes(lt, b);
    SortedUnique(lt, Sort(lt, a), Sort(lt, b));
  }

  /******* Lexicographic order *******/

  ghost predicate StrictTotal<T(!new)>(lt: (T, T) -> bool) {
    && (forall x, y :: lt(x, y) ==> !lt(y, x))
    && (forall x, y, z :: lt(x, y) && lt(y, z) ==> lt(x, z))
    && (forall x, y :: lt(x, y) || lt(y, x) || x == y)
  }

  predicate Lex<T(==)>(lt: (T, T) -> bool, a: seq<T>, b: seq<T>) {
    b != [] && (a == [] || lt(a[0], b[0]) || (a[0] == b[0] && Lex(lt, a[1..], b[1..])))
  }

  lemma {:induction false} LexTransitive<T(!new)>(lt: (T, T) -> bool, a: seq<T>, b: seq<T>, c: seq<T>)
    requires StrictTotal(lt) && Lex(lt, a, b) && Lex(lt, b, c)
    ensures Lex(lt, a, c)
  {
    if a != [] && a[0] == b[0] && b[0] == c[0] { LexTransitive(lt, a[1..], b[1..], c[1..]); }
  }

  lemma {:induction false} LexTotal<T(!new)>(lt: (T, T) -> bool, a: seq<T>, b: seq<T>)
    requires StrictTotal(lt)
    ensures Lex(lt, a, b) || Lex(lt, b, a) || a == b
    ensures !(Lex(lt, a, b) && Lex(lt, b, a)) && (a == b ==> !Lex(lt, a, b))
  {
    if a != [] && b != [] && a[0] == b[0] {
      LexTotal(lt, a[1..], b[1..]);
      assert a == [a[0]] + a[1..] && b == [b[0]] + b[1..];
    }
  }

  /** Strings by character. */
  function CharOrder(): (char, char) -> bool {
    (x: char, y: char) => x < y
  }

  predicate Less(a: string, b: string) {
    Lex(CharOrder(), a, b)
  }

  lemma LessTransitive(a: string, b: string, c: string)
    requires Less(a, b) && Less(b, c)
    ensures Less(a, c)
  {
    LexTransitive(CharOrder(), a, b, c);
  }

  lemma LessTotal(a: string, b: string)
    ensures Less(a, b) || Less(b, a) || a == b
    ensures !(Less(a, b) && Less(b, a))
  {
    LexTotal(CharOrder(), a, b);
  }

  /******* Enumerations of a set *******/

  ghost predicate Distinct<T>(s: seq<T>) {
    forall i, j | 0 <= i < j < |s| :: s[i] != s[j]
  }

  /** A sequence that lists a set has its members, each once. */
  lemma Enumerates<T(!new)>(s: seq<T>, names: set<T>)
    requires multiset(s) == multiset(names)
    ensures Distinct(s) && forall x :: x in s <==> x in names
  {
    forall x: T
      ensures x in s <==> x in names
    {
      assert x in s <==> x in multiset(s);
    }
    forall i, j | 0 <= i < j < |s|
      ensures s[i] != s[j]
    {
      assert multiset(s)[s[i]] <= 1;
      if s[i] == s[j] { TwoPlaces(s, i, j); }
    }
  }

  lemma {:induction false} DistinctEnumerates<T>(s: seq<T>)
    requires Distinct(s)
    ensures multiset(s) == multiset(set x | x in s)
  {
    if s != [] {
      var t := s[1..];
      assert s == [s[0]] + t;
      forall i | 0 <= i < |t|
        ensures t[i] != s[0]
      {
        assert t[i] == s[i + 1];
      }
      DistinctEnumerates(t);
      assert (set x | x in s) == (set x | x in t) + {s[0]};
    }
  }

  /** Two enumerations without repetition of the same elements are permutations of each other. */
  lemma SameElements<T>(a: seq<T>, b: seq<T>)
    requires Distinct(a) && Distinct(b) && forall x :: x in a <==> x in b
    ensures multiset(a) == multiset(b)
  {
    DistinctEnumerates(a);
    DistinctEnumerates(b);
    assert (set x | x in a) == (set x | x in b);
  }

  /** A permutation of a sequence without repetition has none either. */
  lemma PermutedDistinct<T(!new)>(a: seq<T>, b: seq<T>)
    requires Distinct(a) && multiset(a) == multiset(b)
    ensures Distinct(b) && forall x :: x in a <==> x in b
  {
    DistinctEnumerates(a);
    Enumerates(b, set x | x in a);
  }

  /** An element at two places counts twice. */
  lemma TwoPlaces<T>(s: seq<T>, i: nat, j: nat)
    requires i < j < |s| && s[i] == s[j]
    ensures multiset(s)[s[i]] >= 2
  {
    assert s == s[..j] + s[j..];
    assert s[..j][i] in multiset(s[..j]) && s[j..][0] in multiset(s[j..]);
  }

  lemma {:induction false} FindTwice<T>(a: seq<T>, x: T) returns (i: nat, j: nat)
    requires multiset(a)[x] >= 2
    ensures i < j < |a| && a[i] == x && a[j] == x
  {
    assert a != [];
    var last := |a| - 1;
    assert a == a[..last] + [a[last]];
    if a[last] == x {
      assert x in multiset(a[..last]);
      i :| 0 <= i < last && a[..last][i] == x;
      j := last;
    } else {
      i, j := FindTwice(a[..last], x);
    }
  }
}
