/**
 Point-in-time document retrieval: a registry that only grows, a ranked search over the documents
 ingested by a cutoff, and the recall and reciprocal-rank benchmark.
 */
module Documents {
  import opened Basics
  import Ordering

  /** A UUID as the number its sixteen bytes spell, so byte order is numeric order. */
  type Uuid = nat

  datatype Record = Record(
    id: Uuid, title: string, content: string, sourceAt: int, observedAt: int, ingestedAt: int)

  datatype Hit = Hit(id: Uuid, title: string, score: nat)

  const MAX_TITLE: nat := 256
  const MAX_CONTENT: nat := 16 * 1024 * 1024

  ghost predicate DistinctIds(rs: seq<Record>) {
    forall i, j | 0 <= i < j < |rs| :: rs[i].id != rs[j].id
  }

  class DocumentRegistry {
    var records: seq<Record>

    ghost predicate Valid() reads this {
      && DistinctIds(records)
      && forall i | 0 <= i < |records| :: records[i].sourceAt <= records[i].observedAt <= records[i].ingestedAt
    }

    constructor ()
      ensures Valid() && records == []
    {
      records := [];
    }

    /** `clean`: the title is stripped and printable. `text` is the content as UTF-8, if it is. */
    method Register(
      id: Uuid, title: string, clean: bool, content: Bytes, text: Option<string>,
      sourceAt: int, observedAt: int, ingestedAt: int)
      returns (ok: bool)
      requires Valid()
      modifies this
      ensures Valid()
      ensures ok <==>
        && (forall i | 0 <= i < |old(records)| :: old(records)[i].id != id)
        && title != "" && clean && |title| <= MAX_TITLE && 0 < |content| <= MAX_CONTENT
        && sourceAt <= observedAt <= ingestedAt && text.Some?
      ensures ok ==> records == old(records) + [Record(id, title, text.value, sourceAt, observedAt, ingestedAt)]
      ensures !ok ==> records == old(records)
    {
      if (exists i | 0 <= i < |records| :: records[i].id == id)
        || title == "" || !clean || |title| > MAX_TITLE || content == [] || |content| > MAX_CONTENT
        || !(sourceAt <= observedAt <= ingestedAt) || text.None? {
        return false;
      }
      records := records + [Record(id, title, text.value, sourceAt, observedAt, ingestedAt)];
      return true;
    }

    /** The ranked hits among the documents ingested by the cutoff; None is a refused query or limit. */
    method Search(terms: string -> set<string>, query: string, cutoff: int, limit: int) returns (r: Option<seq<Hit>>)
      ensures r == Found(terms, records, query, cutoff, limit)
    {
      var wanted := terms(query);
      if wanted == {} || !(1 <= limit <= 100) {
        return None;
      }
      var visible := VisibleAt(records, cutoff);
      var hits := [];
      for i := 0 to |visible|
        invariant hits == Hits(terms, wanted, visible[..i])
      {
        HitsStep(terms, wanted, visible, i);
        var score := Score(terms, wanted, visible[i]);
        if score != 0 {
          hits := hits + [Hit(visible[i].id, visible[i].title, score)];
        }
      }
      assert visible[..|visible|] == visible;
      return Some(Take(Ordering.Sort((x: Hit, y: Hit) => Better(x, y), hits), limit));
    }
  }

  /******* What a search returns *******/

  function Ingested(rs: seq<Record>, cutoff: int): seq<Record> {
    if rs == [] then []
    else (if rs[0].ingestedAt <= cutoff then [rs[0]] else []) + Ingested(rs[1..], cutoff)
  }

  function VisibleAt(rs: seq<Record>, cutoff: int): seq<Record> {
    Ordering.Sort((x: Record, y: Record) => x.id < y.id, Ingested(rs, cutoff))
  }

  function Score(terms: string -> set<string>, wanted: set<string>, r: Record): nat {
    |wanted * terms(r.title + " " + r.content)|
  }

  function Hits(terms: string -> set<string>, wanted: set<string>, rs: seq<Record>): seq<Hit> {
    if rs == [] then []
    else
      var r := rs[|rs| - 1];
      var score := Score(terms, wanted, r);
      Hits(terms, wanted, rs[..|rs| - 1]) + if score == 0 then [] else [Hit(r.id, r.title, score)]
  }

  lemma HitsStep(terms: string -> set<string>, wanted: set<string>, rs: seq<Record>, i: nat)
    requires i < |rs|
    ensures Hits(terms, wanted, rs[..i + 1]) == Hits(terms, wanted, rs[..i])
      + (if Score(terms, wanted, rs[i]) == 0 then [] else [Hit(rs[i].id, rs[i].title, Score(terms, wanted, rs[i]))])
  {
    assert rs[..i + 1][..i] == rs[..i];
  }

  predicate Better(x: Hit, y: Hit) {
    x.score > y.score || (x.score == y.score && x.id < y.id)
  }

  function Take<T>(s: seq<T>, k: nat): seq<T> {
    if k <= |s| then s[..k] else s
  }

  function Ranked(terms: string -> set<string>, rs: seq<Record>, query: string, cutoff: int): seq<Hit> {
    Ordering.Sort((x: Hit, y: Hit) => Better(x, y), Hits(terms, terms(query), VisibleAt(rs, cutoff)))
  }

  function Found(terms: string -> set<string>, rs: seq<Record>, query: string, cutoff: int, limit: int): Option<seq<Hit>> {
    if terms(query) == {} || !(1 <= limit <= 100) then None else Some(Take(Ranked(terms, rs, query, cutoff), limit))
  }

  /******* Dependence on the visible documents only *******/

  lemma {:induction false} IngestedMembers(rs: seq<Record>, cutoff: int)
    requires DistinctIds(rs)
    ensures DistinctIds(Ingested(rs, cutoff))
    ensures forall r :: r in Ingested(rs, cutoff) <==> r in rs && r.ingestedAt <= cutoff
  {
    if rs != [] {
      IngestedMembers(rs[1..], cutoff);
      forall r | r in Ingested(rs[1..], cutoff)
        ensures r.id != rs[0].id
      {
        var i :| 0 <= i < |rs[1..]| && rs[1..][i] == r;
        assert rs[1..][i] == rs[i + 1];
      }
    }
  }

  lemma ByIdDistinguishes(rs: seq<Record>)
    requires DistinctIds(rs)
    ensures Ordering.StrictWeak((x: Record, y: Record) => x.id < y.id)
    ensures Ordering.Distinguishes((x: Record, y: Record) => x.id < y.id, multiset(rs))
  {
    forall x, y | x in multiset(rs) && y in multiset(rs) && x != y
      ensures x.id < y.id || y.id < x.id
    {
      var i :| 0 <= i < |rs| && rs[i] == x;
      var j :| 0 <= j < |rs| && rs[j] == y;
    }
  }

  /** Registries with the same documents ingested by the cutoff show the same list, in any registration order. */
  lemma VisibleDependsOnSet(a: seq<Record>, b: seq<Record>, cutoff: int)
    requires DistinctIds(a) && DistinctIds(b)
    requires forall r: Record | r.ingestedAt <= cutoff :: r in a <==> r in b
    ensures VisibleAt(a, cutoff) == VisibleAt(b, cutoff)
  {
    var x, y := Ingested(a, cutoff), Ingested(b, cutoff);
    IngestedMembers(a, cutoff);
    IngestedMembers(b, cutoff);
    Ordering.SameElements(x, y);
    ByIdDistinguishes(x);
    Ordering.SortCanonical((x: Record, y: Record) => x.id < y.id, x, y);
  }

  /** Search depends only on the set of documents ingested by the cutoff. */
  lemma SearchDependsOnSet(
    terms: string -> set<string>, a: seq<Record>, b: seq<Record>, query: string, cutoff: int, limit: int)
    requires DistinctIds(a) && DistinctIds(b)
    requires forall r: Record | r.ingestedAt <= cutoff :: r in a <==> r in b
    ensures Found(terms, a, query, cutoff, limit) == Found(terms, b, query, cutoff, limit)
  {
    VisibleDependsOnSet(a, b, cutoff);
  }

  /** A registration ingested after the cutoff is invisible at it. */
  lemma LaterRegistrationInvisible(
    terms: string -> set<string>, rs: seq<Record>, r: Record, query: string, cutoff: int, limit: int)
    requires DistinctIds(rs + [r]) && cutoff < r.ingestedAt
    ensures Found(terms, rs + [r], query, cutoff, limit) == Found(terms, rs, query, cutoff, limit)
  {
    forall i, j | 0 <= i < j < |rs|
      ensures rs[i].id != rs[j].id
    {
      assert (rs + [r])[i].id != (rs + [r])[j].id;
    }
    SearchDependsOnSet(terms, rs + [r], rs, query, cutoff, limit);
  }

  /** A smaller limit returns a prefix. */
  lemma SmallerLimitIsPrefix(
    terms: string -> set<string>, rs: seq<Record>, query: string, cutoff: int, k: nat, l: nat)
    requires 1 <= k <= l <= 100 && terms(query) != {}
    ensures Found(terms, rs, query, cutoff, k) == Some(Take(Found(terms, rs, query, cutoff, l).value, k))
  {
    assert forall s: seq<Hit> :: Take(Take(s, l), k) == Take(s, k);
  }

  lemma {:induction false} HitsMembers(terms: string -> set<string>, wanted: set<string>, rs: seq<Record>, h: Hit)
    ensures h in Hits(terms, wanted, rs) <==>
      exists r | r in rs :: Score(terms, wanted, r) > 0 && h == Hit(r.id, r.title, Score(terms, wanted, r))
  {
    if rs != [] {
      assert rs == rs[..|rs| - 1] + [rs[|rs| - 1]];
      HitsMembers(terms, wanted, rs[..|rs| - 1], h);
    }
  }

  /** A document of the registry that is ingested by the cutoff and shares a term with the query. */
  ghost predicate Relevant(terms: string -> set<string>, rs: seq<Record>, query: string, cutoff: int, h: Hit) {
    exists r | r in rs :: r.ingestedAt <= cutoff && h.id == r.id && h.title == r.title
      && h.score == |terms(query) * terms(r.title + " " + r.content)| > 0
  }

  lemma VisibleMembers(rs: seq<Record>, cutoff: int, visible: seq<Record>)
    requires DistinctIds(rs) && visible == VisibleAt(rs, cutoff)
    ensures forall r :: r in visible <==> r in rs && r.ingestedAt <= cutoff
  {
    IngestedMembers(rs, cutoff);
    Ordering.SortPermutes((x: Record, y: Record) => x.id < y.id, Ingested(rs, cutoff));
    forall r: Record
      ensures r in visible <==> r in Ingested(rs, cutoff)
    {
      assert r in visible <==> r in multiset(visible);
      assert r in Ingested(rs, cutoff) <==> r in multiset(Ingested(rs, cutoff));
    }
  }

  /** The full ranking holds exactly the relevant documents, best first. */
  lemma RankedIsRelevant(
    terms: string -> set<string>, rs: seq<Record>, query: string, cutoff: int, ranked: seq<Hit>)
    requires DistinctIds(rs) && ranked == Ranked(terms, rs, query, cutoff)
    ensures forall i, j | 0 <= i < j < |ranked| :: !Better(ranked[j], ranked[i])
    ensures forall h :: h in ranked <==> Relevant(terms, rs, query, cutoff, h)
  {
    var visible := VisibleAt(rs, cutoff);
    var hits := Hits(terms, terms(query), visible);
    VisibleMembers(rs, cutoff, visible);
    RankedSorted(hits, ranked);
    hide VisibleAt, Ranked, Better;
    forall h: Hit
      ensures h in hits <==> Relevant(terms, rs, query, cutoff, h)
    {
      HitsMembers(terms, terms(query), visible, h);
    }
  }

  /** A search returns relevant documents only, best first, and omits none better than one it returns. */
  lemma SearchReturnsBest(
    terms: string -> set<string>, rs: seq<Record>, query: string, cutoff: int, limit: int, s: seq<Hit>)
    requires DistinctIds(rs) && Found(terms, rs, query, cutoff, limit) == Some(s)
    ensures |s| <= limit && forall i | 0 <= i < |s| :: Relevant(terms, rs, query, cutoff, s[i])
    ensures forall i, j | 0 <= i < j < |s| :: !Better(s[j], s[i])
    ensures forall h | Relevant(terms, rs, query, cutoff, h) && h !in s ::
      |s| == limit && forall i | 0 <= i < |s| :: !Better(h, s[i])
  {
    var ranked := Ranked(terms, rs, query, cutoff);
    RankedIsRelevant(terms, rs, query, cutoff, ranked);
    hide Ranked, Relevant, Better;
    assert forall i | 0 <= i < |s| :: s[i] == ranked[i] && s[i] in ranked;
  }

  lemma RankedSorted(hits: seq<Hit>, ranked: seq<Hit>)
    requires ranked == Ordering.Sort((x: Hit, y: Hit) => Better(x, y), hits)
    ensures forall i, j | 0 <= i < j < |ranked| :: !Better(ranked[j], ranked[i])
    ensures forall h :: h in ranked <==> h in hits
  {
    Ordering.SortSorts((x: Hit, y: Hit) => Better(x, y), hits);
    Ordering.SortPermutes((x: Hit, y: Hit) => Better(x, y), hits);
    forall h: Hit
      ensures h in ranked <==> h in hits
    {
      assert h in ranked <==> h in multiset(ranked);
      assert h in hits <==> h in multiset(hits);
    }
  }

  /******* The benchmark *******/

  datatype Case = Case(query: string, expected: Uuid, cutoff: int)

  datatype Benchmark = Benchmark(count: nat, recall: real, reciprocalRank: real)

  /** The position of the first hit on `id`. */
  function Position(hits: seq<Hit>, id: Uuid): (r: Option<nat>)
    ensures r.Some? ==> r.value < |hits|
  {
    if hits == [] then None
    else if hits[0].id == id then Some(0)
    else match Position(hits[1..], id) case None => None case Some(i) => Some(i + 1)
  }

  function PositionAt(terms: string -> set<string>, rs: seq<Record>, c: Case, k: nat): Option<nat> {
    match Found(terms, rs, c.query, c.cutoff, k)
    case None => None
    case Some(hits) => Position(hits, c.expected)
  }

  /** What one case adds to the number found and to the sum of reciprocal ranks. */
  function Won(at: Option<nat>): nat {
    if at.Some? then 1 else 0
  }

  function Gain(at: Option<nat>): real {
    match at case None => 0.0 case Some(i) => 1.0 / (i + 1) as real
  }

  function FoundCount(terms: string -> set<string>, rs: seq<Record>, cases: seq<Case>, k: nat): nat {
    if cases == [] then 0
    else FoundCount(terms, rs, cases[..|cases| - 1], k) + Won(PositionAt(terms, rs, cases[|cases| - 1], k))
  }

  function ReciprocalSum(terms: string -> set<string>, rs: seq<Record>, cases: seq<Case>, k: nat): real {
    if cases == [] then 0.0
    else ReciprocalSum(terms, rs, cases[..|cases| - 1], k) + Gain(PositionAt(terms, rs, cases[|cases| - 1], k))
  }

  predicate Answerable(terms: string -> set<string>, cases: seq<Case>, k: int) {
    cases != [] && 1 <= k <= 100 && forall i | 0 <= i < |cases| :: terms(cases[i].query) != {}
  }

  /** Run every case against the registry; None when the cases, a query or `k` is refused. */
  method BenchmarkRetrieval(registry: DocumentRegistry, terms: string -> set<string>, cases: seq<Case>, k: int)
    returns (r: Option<Benchmark>)
    ensures r.Some? <==> Answerable(terms, cases, k)
    ensures r.Some? ==> r.value == Benchmark(
      |cases|, FoundCount(terms, registry.records, cases, k) as real / |cases| as real,
      ReciprocalSum(terms, registry.records, cases, k) / |cases| as real)
  {
    hide Found;
    if cases == [] || !(1 <= k <= 100) {
      return None;
    }
    var found, reciprocal := 0, 0.0;
    for i := 0 to |cases|
      invariant forall j | 0 <= j < i :: terms(cases[j].query) != {}
      invariant found == FoundCount(terms, registry.records, cases[..i], k)
      invariant reciprocal == ReciprocalSum(terms, registry.records, cases[..i], k)
    {
      var hits := registry.Search(terms, cases[i].query, cases[i].cutoff, k);
      assert hits.None? <==> terms(cases[i].query) == {} by { SearchRefuses(terms, registry.records, cases[i], k); }
      if hits.None? {
        return None;
      }
      assert cases[..i + 1][..i] == cases[..i];
      var position := Position(hits.value, cases[i].expected);
      if position.Some? {
        found := found + 1;
        reciprocal := reciprocal + 1.0 / (position.value + 1) as real;
      }
    }
    assert cases[..|cases|] == cases;
    return Some(Benchmark(|cases|, found as real / |cases| as real, reciprocal / |cases| as real));
  }

  lemma SearchRefuses(terms: string -> set<string>, rs: seq<Record>, c: Case, k: int)
    requires 1 <= k <= 100
    ensures Found(terms, rs, c.query, c.cutoff, k).None? <==> terms(c.query) == {}
  {
  }

  /** One case: a hit's reciprocal rank lies between one k-th and one. */
  lemma GainBounds(at: Option<nat>, k: nat)
    requires at.Some? ==> at.value < k
    ensures Won(at) as real <= Gain(at) * k as real
    ensures 0.0 <= Gain(at) <= Won(at) as real
  {
    if at.Some? {
      var a, b := (at.value + 1) as real, k as real;
      assert (1.0 / a) * a == 1.0;
      assert (1.0 / a) * (b - a) >= 0.0;
    }
  }

  lemma PositionWithin(terms: string -> set<string>, rs: seq<Record>, c: Case, k: nat)
    requires PositionAt(terms, rs, c, k).Some?
    ensures PositionAt(terms, rs, c, k).value < k
  {
  }

  predicate Bounded(found: nat, sum: real, cases: nat, k: nat) {
    found <= cases && found as real <= sum * k as real && sum <= found as real
  }

  lemma BoundedStep(found: nat, sum: real, cases: nat, k: nat, at: Option<nat>)
    requires Bounded(found, sum, cases, k) && (at.Some? ==> at.value < k)
    ensures Bounded(found + Won(at), sum + Gain(at), cases + 1, k)
  {
    GainBounds(at, k);
    hide Gain;
    var m := k as real;
    assert (sum + Gain(at)) * m == sum * m + Gain(at) * m;
  }

  lemma NothingBounded(k: nat)
    ensures Bounded(0, 0.0, 0, k)
  {
  }

  lemma SumsUnfold(terms: string -> set<string>, rs: seq<Record>, cases: seq<Case>, k: nat)
    requires cases != []
    ensures var rest, at := cases[..|cases| - 1], PositionAt(terms, rs, cases[|cases| - 1], k);
      && FoundCount(terms, rs, cases, k) == FoundCount(terms, rs, rest, k) + Won(at)
      && ReciprocalSum(terms, rs, cases, k) == ReciprocalSum(terms, rs, rest, k) + Gain(at)
  {
    hide PositionAt, Won, Gain;
  }

  lemma {:induction false} SumBounds(terms: string -> set<string>, rs: seq<Record>, cases: seq<Case>, k: nat)
    ensures Bounded(FoundCount(terms, rs, cases, k), ReciprocalSum(terms, rs, cases, k), |cases|, k)
  {
    hide Bounded, Won, Gain, PositionAt;
    if cases == [] {
      NothingBounded(k);
    } else {
      var rest, c := cases[..|cases| - 1], cases[|cases| - 1];
      SumsUnfold(terms, rs, cases, k);
      hide FoundCount, ReciprocalSum;
      SumBounds(terms, rs, rest, k);
      var at := PositionAt(terms, rs, c, k);
      if at.Some? { PositionWithin(terms, rs, c, k); }
      BoundedStep(FoundCount(terms, rs, rest, k), ReciprocalSum(terms, rs, rest, k), |rest|, k, at);
    }
  }

  /** For every case list: recall / k <= mean reciprocal rank <= recall <= 1. */
  lemma BenchmarkBounds(terms: string -> set<string>, rs: seq<Record>, cases: seq<Case>, k: nat)
    requires cases != [] && k >= 1
    ensures var n, f, s := |cases| as real, FoundCount(terms, rs, cases, k) as real, ReciprocalSum(terms, rs, cases, k);
      (f / n) / k as real <= s / n <= f / n <= 1.0
  {
    hide FoundCount, ReciprocalSum;
    SumBounds(terms, rs, cases, k);
    MeanBounds(FoundCount(terms, rs, cases, k) as real, ReciprocalSum(terms, rs, cases, k), |cases| as real, k as real);
  }

  lemma MeanBounds(f: real, s: real, n: real, k: real)
    requires n > 0.0 && k > 0.0 && f <= n && f <= s * k && s <= f
    ensures (f / n) / k <= s / n <= f / n <= 1.0
  {
    Divided(s, f, n);
    Divided(f, n, n);
    Divided(f, s * k, n);
    Divided(f / n, (s * k) / n, k);
    Cancelled(s, n, k);
  }

  lemma Divided(a: real, b: real, n: real)
    requires n > 0.0 && a <= b
    ensures a / n <= b / n
  {
    assert b / n - a / n == (b - a) / n >= 0.0;
  }

  lemma Cancelled(s: real, n: real, k: real)
    requires n > 0.0 && k > 0.0
    ensures ((s * k) / n) / k == s / n
  {
    var q := s / n;
    assert q * n == s;
    assert (q * k) * n == s * k;
    assert (s * k) / n == q * k;
  }

  lemma {:induction false} PositionInPrefix(hits: seq<Hit>, k: nat, id: Uuid)
    requires k <= |hits| && Position(hits[..k], id).Some?
    ensures Position(hits, id) == Position(hits[..k], id)
  {
    if hits[0].id != id {
      assert hits[..k][1..] == hits[1..][..k - 1];
      PositionInPrefix(hits[1..], k - 1, id);
    }
  }

  /** Looking at more hits keeps a found document at its rank. */
  lemma PositionKept(terms: string -> set<string>, rs: seq<Record>, c: Case, k: nat, l: nat)
    requires 1 <= k <= l <= 100 && PositionAt(terms, rs, c, k).Some?
    ensures PositionAt(terms, rs, c, l) == PositionAt(terms, rs, c, k)
  {
    var ranked := Ranked(terms, rs, c.query, c.cutoff);
    var long := Take(ranked, l);
    assert Take(long, k) == Take(ranked, k);
    if k <= |long| { PositionInPrefix(long, k, c.expected); }
  }

  lemma GainGrows(at: Option<nat>, later: Option<nat>)
    requires at.Some? ==> later == at
    ensures Gain(at) <= Gain(later)
  {
    if later.Some? { GainBounds(later, later.value + 1); }
  }

  /** Recall and mean reciprocal rank are monotone in k. */
  lemma {:induction false} MonotoneInK(
    terms: string -> set<string>, rs: seq<Record>, cases: seq<Case>, k: nat, l: nat)
    requires 1 <= k <= l <= 100
    ensures FoundCount(terms, rs, cases, k) <= FoundCount(terms, rs, cases, l)
    ensures ReciprocalSum(terms, rs, cases, k) <= ReciprocalSum(terms, rs, cases, l)
  {
    if cases != [] {
      var c := cases[|cases| - 1];
      MonotoneInK(terms, rs, cases[..|cases| - 1], k, l);
      SumsUnfold(terms, rs, cases, k);
      SumsUnfold(terms, rs, cases, l);
      hide PositionAt, Gain, FoundCount, ReciprocalSum;
      var at, later := PositionAt(terms, rs, c, k), PositionAt(terms, rs, c, l);
      if at.Some? { PositionKept(terms, rs, c, k, l); }
      assert Won(at) <= Won(later);
      assert Gain(at) <= Gain(later) by { GainGrows(at, later); }
    }
  }
}
