// Ranked retry context: evidence accumulated into candidates per key, and the list
// ranked from them.
module Ranking {
  import opened Ordering
  import opened Text

  datatype Key = Key(path: string, line: int, tag: string)

  type Metadata = map<string, string>

  /** One call of _add_candidate. */
  datatype Evidence = Evidence(
    path: string, line: int, endLine: int, score: int, source: string, reason: string,
    symbol: string, kind: string, snippet: string, metadata: Metadata)
  {
    function GroupKey(): Key
    {
      Key(path, line, Tag(symbol, kind))
    }
  }

  /** symbol_name or kind */
  function Tag(symbol: string, kind: string): string
  {
    if symbol != "" then symbol else kind
  }

  datatype Candidate = Candidate(
    path: string, line: int, endLine: int, symbol: string, kind: string,
    score: int, sources: set<string>, reasons: seq<string>, snippet: string, metadata: Metadata)
  {
    function GroupKey(): Key
    {
      Key(path, line, Tag(symbol, kind))
    }
  }

  /** A dictionary keeps its keys in the order of their first assignment. */
  datatype Accumulator = Accumulator(keys: seq<Key>, items: map<Key, Candidate>)

  // ---------------------------------------------------------------------
  // Reference: grouping by key
  // ---------------------------------------------------------------------

  function SumFor(evidence: seq<Evidence>, key: Key): int
  {
    if evidence == [] then 0
    else
      var e := evidence[|evidence| - 1];
      SumFor(evidence[..|evidence| - 1], key) + if e.GroupKey() == key then e.score else 0
  }

  function SourcesFor(evidence: seq<Evidence>, key: Key): set<string>
  {
    set i | 0 <= i < |evidence| && evidence[i].GroupKey() == key :: evidence[i].source
  }

  /** The keys in order of first appearance. */
  function Order(evidence: seq<Evidence>): (keys: seq<Key>)
    ensures Distinct(keys)
  {
    if evidence == [] then []
    else
      var head, key := Order(evidence[..|evidence| - 1]), evidence[|evidence| - 1].GroupKey();
      if key in head then head else head + [key]
  }

  /** The distinct reasons of a key, in order of first appearance. */
  function ReasonsFor(evidence: seq<Evidence>, key: Key): seq<string>
  {
    if evidence == [] then []
    else
      var e, head := evidence[|evidence| - 1], ReasonsFor(evidence[..|evidence| - 1], key);
      head + if e.GroupKey() == key && e.reason != "" && e.reason !in head then [e.reason] else []
  }

  /** The first snippet of a key that is not empty. */
  function SnippetFor(evidence: seq<Evidence>, key: Key): string
  {
    if evidence == [] then ""
    else
      var e, head := evidence[|evidence| - 1], SnippetFor(evidence[..|evidence| - 1], key);
      if head == "" && e.GroupKey() == key then e.snippet else head
  }

  /** Of each metadata entry the last value. */
  function MetadataFor(evidence: seq<Evidence>, key: Key): Metadata
  {
    if evidence == [] then map[]
    else
      var e, head := evidence[|evidence| - 1], MetadataFor(evidence[..|evidence| - 1], key);
      if e.GroupKey() == key then head + e.metadata else head
  }

  /** The first evidence of a key decides its symbol, kind and end line. */
  function FirstFor(evidence: seq<Evidence>, key: Key): (first: Option<Evidence>)
    ensures first.Some? ==> first.value.GroupKey() == key
    ensures first.Some? <==> key in Order(evidence)
  {
    if evidence == [] then None
    else
      var e, head := evidence[|evidence| - 1], FirstFor(evidence[..|evidence| - 1], key);
      if head.None? && e.GroupKey() == key then Some(e) else head
  }

  /** The candidate that holds all the evidence of one key. */
  function Collected(evidence: seq<Evidence>, key: Key): (c: Candidate)
    ensures key in Order(evidence) ==> c.GroupKey() == key
  {
    var first := FirstFor(evidence, key);
    Candidate(
      key.path, key.line,
      if first.Some? then first.value.endLine else 0,
      if first.Some? then first.value.symbol else "",
      if first.Some? then first.value.kind else "",
      SumFor(evidence, key), SourcesFor(evidence, key), ReasonsFor(evidence, key), SnippetFor(evidence, key),
      MetadataFor(evidence, key))
  }

  /** The accumulator is the evidence, grouped. */
  ghost predicate Groups(acc: Accumulator, evidence: seq<Evidence>)
  {
    && acc.keys == Order(evidence)
    && (forall key :: key in acc.items <==> key in acc.keys)
    && forall key | key in acc.items :: acc.items[key] == Collected(evidence, key)
  }

  // ---------------------------------------------------------------------
  // The accumulation
  // ---------------------------------------------------------------------

  function Merge(c: Candidate, e: Evidence): Candidate
  {
    c.(score := c.score + e.score, sources := c.sources + {e.source},
       reasons := if e.reason != "" && e.reason !in c.reasons then c.reasons + [e.reason] else c.reasons,
       snippet := if e.snippet != "" && c.snippet == "" then e.snippet else c.snippet,
       metadata := c.metadata + e.metadata)
  }

  function NewCandidate(e: Evidence): Candidate
  {
    Candidate(e.path, e.line, e.endLine, e.symbol, e.kind, 0, {}, [], e.snippet, map[])
  }

  method AddCandidate(acc: Accumulator, e: Evidence, ghost evidence: seq<Evidence>) returns (out: Accumulator)
    requires Groups(acc, evidence)
    ensures Groups(out, evidence + [e])
  {
    var key := e.GroupKey();
    var candidate := if key in acc.items then acc.items[key] else NewCandidate(e);
    var keys := if key in acc.items then acc.keys else acc.keys + [key];
    candidate := Merge(candidate, e);
    out := Accumulator(keys, acc.items[key := candidate]);
    OrderSnoc(evidence, e);
    if key in acc.items {
      MergeCollects(evidence, e);
    } else {
      FirstCollects(evidence, e);
    }
    forall k | k in acc.items && k != key ensures out.items[k] == Collected(evidence + [e], k) {
      OtherCollects(evidence, e, k);
    }
  }

  lemma OrderSnoc(evidence: seq<Evidence>, e: Evidence)
    ensures Order(evidence + [e]) ==
      if e.GroupKey() in Order(evidence) then Order(evidence) else Order(evidence) + [e.GroupKey()]
  {
    assert (evidence + [e])[..|evidence|] == evidence;
  }

  lemma MergeCollects(evidence: seq<Evidence>, e: Evidence)
    requires e.GroupKey() in Order(evidence)
    ensures Collected(evidence + [e], e.GroupKey()) == Merge(Collected(evidence, e.GroupKey()), e)
  {
    assert (evidence + [e])[..|evidence|] == evidence;
    SourcesSnoc(evidence, e, e.GroupKey());
  }

  lemma FirstCollects(evidence: seq<Evidence>, e: Evidence)
    requires e.GroupKey() !in Order(evidence)
    ensures Collected(evidence + [e], e.GroupKey()) == Merge(NewCandidate(e), e)
  {
    assert (evidence + [e])[..|evidence|] == evidence;
    SourcesSnoc(evidence, e, e.GroupKey());
    NoEvidence(evidence, e.GroupKey());
    assert map[] + e.metadata == e.metadata;
  }

  lemma OtherCollects(evidence: seq<Evidence>, e: Evidence, key: Key)
    requires e.GroupKey() != key
    ensures Collected(evidence + [e], key) == Collected(evidence, key)
  {
    assert (evidence + [e])[..|evidence|] == evidence;
    SourcesSnoc(evidence, e, key);
  }

  lemma SourcesSnoc(evidence: seq<Evidence>, e: Evidence, key: Key)
    ensures SourcesFor(evidence + [e], key) == SourcesFor(evidence, key) + if e.GroupKey() == key then {e.source} else {}
  {
    var all := evidence + [e];
    assert forall i | 0 <= i < |evidence| :: all[i] == evidence[i];
    assert all[|evidence|] == e;
    forall s | s in SourcesFor(evidence, key) ensures s in SourcesFor(all, key) {
      var i :| 0 <= i < |evidence| && evidence[i].GroupKey() == key && evidence[i].source == s;
      assert all[i].GroupKey() == key;
    }
  }

  lemma {:induction false} OrderHolds(evidence: seq<Evidence>, key: Key)
    ensures key in Order(evidence) <==> exists i :: 0 <= i < |evidence| && evidence[i].GroupKey() == key
  {
    if evidence != [] {
      var head, last := evidence[..|evidence| - 1], evidence[|evidence| - 1];
      OrderHolds(head, key);
      assert evidence == head + [last];
      if i :| 0 <= i < |head| && head[i].GroupKey() == key {
        assert evidence[i].GroupKey() == key;
      }
    }
  }

  lemma {:induction false} NoEvidence(evidence: seq<Evidence>, key: Key)
    requires key !in Order(evidence)
    ensures SumFor(evidence, key) == 0 && SourcesFor(evidence, key) == {}
    ensures ReasonsFor(evidence, key) == [] && SnippetFor(evidence, key) == ""
    ensures MetadataFor(evidence, key) == map[]
  {
    if evidence != [] {
      var head := evidence[..|evidence| - 1];
      assert head + [evidence[|evidence| - 1]] == evidence;
      NoEvidence(head, key);
      SourcesSnoc(head, evidence[|evidence| - 1], key);
    }
  }

  method Accumulate(evidence: seq<Evidence>) returns (acc: Accumulator)
    ensures Groups(acc, evidence)
  {
    acc := Accumulator([], map[]);
    for i := 0 to |evidence|
      invariant Groups(acc, evidence[..i])
    {
      assert evidence[..i] + [evidence[i]] == evidence[..i + 1];
      acc := AddCandidate(acc, evidence[i], evidence[..i]);
    }
    assert evidence[..|evidence|] == evidence;
  }

  // ---------------------------------------------------------------------
  // Independence of the order of evidence
  // ---------------------------------------------------------------------

  lemma {:induction false} SumConcat(a: seq<Evidence>, b: seq<Evidence>, key: Key)
    ensures SumFor(a + b, key) == SumFor(a, key) + SumFor(b, key)
  {
    if b == [] {
      assert a + b == a;
    } else {
      SumConcat(a, b[..|b| - 1], key);
      assert (a + b)[..|a + b| - 1] == a + b[..|b| - 1];
    }
  }

  lemma SumWithout(b: seq<Evidence>, i: nat, key: Key)
    requires i < |b|
    ensures var rest := b[..i] + b[i + 1..];
      && multiset(rest) == multiset(b) - multiset{b[i]}
      && SumFor(b, key) == SumFor(rest, key) + if b[i].GroupKey() == key then b[i].score else 0
  {
    var left, right := b[..i], b[i + 1..];
    assert b == left + [b[i]] + right;
    SumConcat(left + [b[i]], right, key);
    SumConcat(left, right, key);
    assert (left + [b[i]])[..i] == left;
  }

  lemma {:induction false} SumIsOrderFree(a: seq<Evidence>, b: seq<Evidence>, key: Key)
    requires multiset(a) == multiset(b)
    ensures SumFor(a, key) == SumFor(b, key)
    decreases |a|
  {
    if a == [] {
      assert |multiset(b)| == 0;
    } else {
      var head, last := a[..|a| - 1], a[|a| - 1];
      assert a == head + [last];
      assert last in multiset(b);
      var i :| 0 <= i < |b| && b[i] == last;
      SumWithout(b, i, key);
      assert multiset(head) == multiset(a) - multiset{last};
      SumIsOrderFree(head, b[..i] + b[i + 1..], key);
    }
  }

  lemma SameElements(a: seq<Evidence>, b: seq<Evidence>, key: Key)
    requires multiset(a) == multiset(b)
    ensures (key in Order(a) ==> key in Order(b)) && SourcesFor(a, key) <= SourcesFor(b, key)
  {
    OrderHolds(a, key);
    OrderHolds(b, key);
    if i :| 0 <= i < |a| && a[i].GroupKey() == key {
      assert a[i] in multiset(a);
      var j :| 0 <= j < |b| && b[j] == a[i];
    }
    forall s | s in SourcesFor(a, key) ensures s in SourcesFor(b, key) {
      var i :| 0 <= i < |a| && a[i].GroupKey() == key && a[i].source == s;
      assert a[i] in multiset(a);
      var j :| 0 <= j < |b| && b[j] == a[i];
      assert b[j].GroupKey() == key && b[j].source == s;
    }
  }

  /** The same evidence in any order gives the same keys with the same scores and sources. */
  lemma AccumulationIsOrderFree(a: seq<Evidence>, b: seq<Evidence>, key: Key)
    requires multiset(a) == multiset(b)
    ensures key in Order(a) <==> key in Order(b)
    ensures SumFor(a, key) == SumFor(b, key) && SourcesFor(a, key) == SourcesFor(b, key)
  {
    SumIsOrderFree(a, b, key);
    SameElements(a, b, key);
    SameElements(b, a, key);
  }

  // ---------------------------------------------------------------------
  // The ranked list
  // ---------------------------------------------------------------------

  /** key = (-score, path, line, symbol_name) */
  predicate CandidateLe(a: Candidate, b: Candidate)
  {
    if a.score != b.score then a.score > b.score
    else ThenBy(a.path, b.path, if a.line != b.line then a.line < b.line else StringLe(a.symbol, b.symbol))
  }

  lemma CandidateOrder()
    ensures TotalOrder(CandidateLe)
  {
    forall a: Candidate, b: Candidate ensures CandidateLe(a, b) || CandidateLe(b, a) {
      StringLeTotal(a.path, b.path);
      StringLeTotal(a.symbol, b.symbol);
    }
    forall a: Candidate, b: Candidate, c: Candidate | CandidateLe(a, b) && CandidateLe(b, c)
      ensures CandidateLe(a, c)
    {
      CandidateLeTransitive(a, b, c);
    }
  }

  lemma CandidateLeTransitive(a: Candidate, b: Candidate, c: Candidate)
    requires CandidateLe(a, b) && CandidateLe(b, c)
    ensures CandidateLe(a, c)
  {
    if a.score == b.score == c.score {
      if StringLe(a.path, b.path) && StringLe(b.path, c.path) {
        StringLeTransitive(a.path, b.path, c.path);
      }
      StringLeTotal(a.path, b.path);
      StringLeTotal(b.path, c.path);
      if StringLe(a.symbol, b.symbol) && StringLe(b.symbol, c.symbol) {
        StringLeTransitive(a.symbol, b.symbol, c.symbol);
      }
    }
  }

  /** The accumulated candidates, in the order of the dictionary. */
  function CandidatesOf(evidence: seq<Evidence>): (candidates: seq<Candidate>)
    ensures |candidates| == |Order(evidence)|
    ensures forall i | 0 <= i < |candidates| :: candidates[i] == Collected(evidence, Order(evidence)[i])
  {
    var keys := Order(evidence);
    seq(|keys|, i requires 0 <= i < |keys| => Collected(evidence, keys[i]))
  }

  /** All of them, ranked. */
  function Ranked(evidence: seq<Evidence>): seq<Candidate>
  {
    Sort(CandidatesOf(evidence), CandidateLe)
  }

  method Rank(evidence: seq<Evidence>, limit: int) returns (ranked: seq<Candidate>)
    ensures ranked == SliceTo(Ranked(evidence), limit)
  {
    var acc := Accumulate(evidence);
    var candidates: seq<Candidate> := [];
    for i := 0 to |acc.keys|
      invariant candidates == CandidatesOf(evidence)[..i]
    {
      assert acc.keys[i] in acc.keys;
      candidates := candidates + [acc.items[acc.keys[i]]];
    }
    assert CandidatesOf(evidence)[..|acc.keys|] == CandidatesOf(evidence);
    ranked := SliceTo(Sort(candidates, CandidateLe), limit);
  }

  lemma CandidatesDiffer(evidence: seq<Evidence>)
    ensures Distinct(CandidatesOf(evidence))
    ensures forall c | c in CandidatesOf(evidence) :: c.GroupKey() in Order(evidence) && c == Collected(evidence, c.GroupKey())
  {
    var keys, candidates := Order(evidence), CandidatesOf(evidence);
    forall i | 0 <= i < |keys| ensures candidates[i].GroupKey() == keys[i] {
      assert keys[i] in keys;
    }
  }

  /** The ranked list is a sorted list of the candidates, every one once. */
  lemma RankedHolds(evidence: seq<Evidence>)
    ensures Sorted(Ranked(evidence), CandidateLe)
    ensures multiset(Ranked(evidence)) == multiset(CandidatesOf(evidence))
    ensures StableFrom(CandidatesOf(evidence), Ranked(evidence), CandidateLe)
  {
    CandidateOrder();
    CandidatesDiffer(evidence);
    SortSorts(CandidatesOf(evidence), CandidateLe);
    SortIsStable(CandidatesOf(evidence), CandidateLe);
  }

  /**
   * The report's list is sorted, each entry holds the sum, the sources and the rest of
   * the evidence of its key, and no key left out ranks before one that is listed.
   */
  lemma RankedIsBest(evidence: seq<Evidence>, limit: int)
    ensures var top := SliceTo(Ranked(evidence), limit);
      && Sorted(top, CandidateLe) && |top| == SliceLength(|Order(evidence)|, limit)
      && (forall c | c in top :: c.GroupKey() in Order(evidence) && c == Collected(evidence, c.GroupKey()))
      && (forall c, key | c in top && key in Order(evidence) && Collected(evidence, key) !in top ::
            CandidateLe(c, Collected(evidence, key)))
  {
    RankedHolds(evidence);
    var all, top := Ranked(evidence), SliceTo(Ranked(evidence), limit);
    assert |multiset(all)| == |multiset(CandidatesOf(evidence))|;
    forall c | c in top ensures c.GroupKey() in Order(evidence) && c == Collected(evidence, c.GroupKey()) {
      assert c in all;
      RankedMember(evidence, c);
    }
    forall c, key | c in top && key in Order(evidence) && Collected(evidence, key) !in top
      ensures CandidateLe(c, Collected(evidence, key))
    {
      RankedHasAll(evidence, key);
      LeftOutIsBehind(all, limit, c, Collected(evidence, key));
    }
  }

  lemma RankedMember(evidence: seq<Evidence>, c: Candidate)
    requires c in Ranked(evidence)
    ensures c.GroupKey() in Order(evidence) && c == Collected(evidence, c.GroupKey())
  {
    RankedHolds(evidence);
    CandidatesDiffer(evidence);
    assert c in multiset(Ranked(evidence));
  }

  lemma RankedHasAll(evidence: seq<Evidence>, key: Key)
    requires key in Order(evidence)
    ensures Collected(evidence, key) in Ranked(evidence)
  {
    RankedHolds(evidence);
    var k := Position(Order(evidence), key);
    assert CandidatesOf(evidence)[k] == Collected(evidence, key);
    assert Collected(evidence, key) in multiset(CandidatesOf(evidence));
  }

  lemma LeftOutIsBehind(all: seq<Candidate>, limit: int, c: Candidate, other: Candidate)
    requires Sorted(all, CandidateLe) && c in SliceTo(all, limit)
    requires other in all && other !in SliceTo(all, limit)
    ensures CandidateLe(c, other)
  {
    var top := SliceTo(all, limit);
    var i :| 0 <= i < |top| && top[i] == c;
    var j :| 0 <= j < |all| && all[j] == other;
    assert j >= |top| && all[i] == c;
  }

  // ---------------------------------------------------------------------
  // When the order of evidence shows
  // ---------------------------------------------------------------------

  function KeysOf(candidates: seq<Candidate>): seq<Key>
  {
    seq(|candidates|, i requires 0 <= i < |candidates| => candidates[i].GroupKey())
  }

  /** Equal in score, path, line and symbol. */
  predicate Tied(evidence: seq<Evidence>, a: Key, b: Key)
  {
    CandidateLe(Collected(evidence, a), Collected(evidence, b))
    && CandidateLe(Collected(evidence, b), Collected(evidence, a))
  }

  /** The ranking of two keys: by rank, and on a tie by first appearance. */
  predicate Before(evidence: seq<Evidence>, a: Key, b: Key)
  {
    if Tied(evidence, a, b) then Position(Order(evidence), a) < Position(Order(evidence), b)
    else CandidateLe(Collected(evidence, a), Collected(evidence, b))
  }

  lemma {:induction false} PositionOfCandidate(evidence: seq<Evidence>, key: Key)
    requires key in Order(evidence)
    ensures Position(CandidatesOf(evidence), Collected(evidence, key)) == Position(Order(evidence), key)
  {
    CandidatesDiffer(evidence);
    var k := Position(Order(evidence), key);
    var i := Position(CandidatesOf(evidence), Collected(evidence, key));
    assert CandidatesOf(evidence)[k] == Collected(evidence, key);
    assert CandidatesOf(evidence)[k] in CandidatesOf(evidence);
    assert Order(evidence)[i] in Order(evidence);
  }

  /** The keys of the ranked list stand in exactly that order. */
  lemma RankedKeysInOrder(evidence: seq<Evidence>)
    ensures var keys := KeysOf(Ranked(evidence));
      && multiset(keys) == multiset(Order(evidence))
      && forall i, j | 0 <= i < j < |keys| :: Before(evidence, keys[i], keys[j])
  {
    var ranked, keys := Ranked(evidence), KeysOf(Ranked(evidence));
    RankedHolds(evidence);
    CandidatesDiffer(evidence);
    forall i | 0 <= i < |ranked| ensures keys[i] in Order(evidence) && ranked[i] == Collected(evidence, keys[i]) {
      RankedMember(evidence, ranked[i]);
    }
    forall i, j | 0 <= i < j < |keys| ensures Before(evidence, keys[i], keys[j]) {
      PositionOfCandidate(evidence, keys[i]);
      PositionOfCandidate(evidence, keys[j]);
    }
    KeysAreRanked(evidence);
  }

  lemma KeysAreRanked(evidence: seq<Evidence>)
    requires var keys := KeysOf(Ranked(evidence));
      forall i, j | 0 <= i < j < |keys| :: Before(evidence, keys[i], keys[j])
    ensures multiset(KeysOf(Ranked(evidence))) == multiset(Order(evidence))
  {
    var keys := KeysOf(Ranked(evidence));
    forall i, j | 0 <= i < j < |keys| ensures keys[i] != keys[j] {
      BeforeIsAsymmetric(evidence, keys[i], keys[j]);
    }
    forall key ensures key in keys <==> key in Order(evidence) {
      if key in Order(evidence) {
        RankedHasAll(evidence, key);
        var i :| 0 <= i < |keys| && Ranked(evidence)[i] == Collected(evidence, key);
        assert keys[i] == key;
      }
      if key in keys {
        var i :| 0 <= i < |keys| && keys[i] == key;
        RankedMember(evidence, Ranked(evidence)[i]);
      }
    }
    DistinctMultiset(keys, Order(evidence));
  }

  lemma BeforeIsAsymmetric(evidence: seq<Evidence>, a: Key, b: Key)
    ensures !(Before(evidence, a, b) && Before(evidence, b, a))
  {
  }

  /** The same keys in the same order, for two lists of evidence. */
  ghost predicate SameRanking(a: seq<Evidence>, b: seq<Evidence>)
  {
    KeysOf(Ranked(a)) == KeysOf(Ranked(b))
  }

  /**
   * Two orders of the same evidence rank the keys alike exactly if they agree on every
   * pair of keys, that is by rank, and for ties by which key appeared first.
   */
  lemma SameRankingExactly(a: seq<Evidence>, b: seq<Evidence>)
    requires multiset(a) == multiset(b)
    ensures SameRanking(a, b) <==> AgreeOnPairs(a, b)
  {
    SameKeys(a, b);
    RankedKeysInOrder(a);
    RankedKeysInOrder(b);
    if SameRanking(a, b) {
      forall x, y | x in Order(a) && y in Order(a) ensures Before(a, x, y) == Before(b, x, y) {
        InRankedKeys(a, x);
        InRankedKeys(a, y);
        ListDecides(a, KeysOf(Ranked(a)), x, y);
        ListDecides(b, KeysOf(Ranked(a)), x, y);
      }
    } else if AgreeOnPairs(a, b) {
      AgreementDecides(a, b, KeysOf(Ranked(a)), KeysOf(Ranked(b)));
    }
  }

  lemma InRankedKeys(evidence: seq<Evidence>, key: Key)
    requires key in Order(evidence)
    ensures key in KeysOf(Ranked(evidence))
  {
    RankedKeysInOrder(evidence);
    assert key in multiset(KeysOf(Ranked(evidence)));
  }

  ghost predicate AgreeOnPairs(a: seq<Evidence>, b: seq<Evidence>)
  {
    forall x, y | x in Order(a) && y in Order(a) :: Before(a, x, y) == Before(b, x, y)
  }

  lemma AgreementDecides(a: seq<Evidence>, b: seq<Evidence>, r: seq<Key>, q: seq<Key>)
    requires AgreeOnPairs(a, b) && multiset(r) == multiset(q) == multiset(Order(a))
    requires forall i, j | 0 <= i < j < |r| :: Before(a, r[i], r[j])
    requires forall i, j | 0 <= i < j < |q| :: Before(b, q[i], q[j])
    ensures r == q
  {
    forall i, j | 0 <= i < j < |q| ensures Before(a, q[i], q[j]) {
      assert q[i] in multiset(q) && q[j] in multiset(q);
    }
    forall x, y ensures !(Before(a, x, y) && Before(a, y, x)) {
      BeforeIsAsymmetric(a, x, y);
    }
    OrderedIsUnique(r, q, (x, y) => Before(a, x, y));
  }

  lemma SameKeys(a: seq<Evidence>, b: seq<Evidence>)
    requires multiset(a) == multiset(b)
    ensures multiset(Order(a)) == multiset(Order(b))
  {
    forall key ensures key in Order(a) <==> key in Order(b) {
      SameElements(a, b, key);
      SameElements(b, a, key);
    }
    DistinctMultiset(Order(a), Order(b));
  }

  lemma DistinctMultiset<T>(a: seq<T>, b: seq<T>)
    requires Distinct(a) && Distinct(b)
    requires forall x | x in a :: x in b
    requires forall x | x in b :: x in a
    ensures multiset(a) == multiset(b)
  {
    forall x | x in multiset(a) + multiset(b) ensures multiset(a)[x] == multiset(b)[x] {
      CountOnce(a, x);
      CountOnce(b, x);
    }
  }

  lemma {:induction false} CountOnce<T>(s: seq<T>, x: T)
    requires Distinct(s)
    ensures multiset(s)[x] == if x in s then 1 else 0
  {
    if s != [] {
      CountOnce(s[1..], x);
      assert s == [s[0]] + s[1..];
    }
  }

  /** In a list ordered by Before, positions decide it. */
  lemma ListDecides(evidence: seq<Evidence>, keys: seq<Key>, x: Key, y: Key)
    requires forall i, j | 0 <= i < j < |keys| :: Before(evidence, keys[i], keys[j])
    requires x in keys && y in keys
    ensures Before(evidence, x, y) <==> Position(keys, x) < Position(keys, y)
  {
    var i, j := Position(keys, x), Position(keys, y);
    BeforeIsAsymmetric(evidence, x, y);
    if i == j {
      assert x == y;
    }
  }

  // ---------------------------------------------------------------------
  // The same, in terms of the first evidence of each key
  // ---------------------------------------------------------------------

  /** Equal in score, path and line; the order of evidence has no part in it. */
  predicate Level(evidence: seq<Evidence>, x: Key, y: Key)
  {
    SumFor(evidence, x) == SumFor(evidence, y) && x.path == y.path && x.line == y.line
  }

  /** The first evidence of the key has a symbol name, which is then the tag of the key. */
  predicate Named(evidence: seq<Evidence>, key: Key)
  {
    var first := FirstFor(evidence, key);
    first.Some? && first.value.symbol != ""
  }

  /** Of two level keys, which one stands first: unnamed before named, named by name, unnamed by appearance. */
  predicate StandsFirst(evidence: seq<Evidence>, x: Key, y: Key)
  {
    if Named(evidence, x) && Named(evidence, y) then x.tag != y.tag && StringLe(x.tag, y.tag)
    else if Named(evidence, x) || Named(evidence, y) then Named(evidence, y)
    else Position(Order(evidence), x) < Position(Order(evidence), y)
  }

  lemma SymbolOfKey(evidence: seq<Evidence>, key: Key)
    requires key in Order(evidence)
    ensures Collected(evidence, key).symbol == if Named(evidence, key) then key.tag else ""
  {
  }

  lemma LevelOrder(evidence: seq<Evidence>, x: Key, y: Key)
    requires x in Order(evidence) && y in Order(evidence) && Level(evidence, x, y)
    ensures Before(evidence, x, y) <==> StandsFirst(evidence, x, y)
  {
    SymbolOfKey(evidence, x);
    SymbolOfKey(evidence, y);
    var c, d := Collected(evidence, x), Collected(evidence, y);
    StringLeTotal(c.symbol, d.symbol);
    assert Tied(evidence, x, y) <==> c.symbol == d.symbol;
    if Named(evidence, x) && Named(evidence, y) && x.tag == y.tag {
      assert x == y;
    }
  }

  lemma OffLevelOrder(a: seq<Evidence>, b: seq<Evidence>, x: Key, y: Key)
    requires multiset(a) == multiset(b) && !Level(a, x, y)
    ensures Before(a, x, y) == Before(b, x, y)
  {
    AccumulationIsOrderFree(a, b, x);
    AccumulationIsOrderFree(a, b, y);
    StringLeTotal(x.path, y.path);
  }

  /** Every two level keys stand in the same order. */
  ghost predicate AgreeOnLevel(a: seq<Evidence>, b: seq<Evidence>)
  {
    forall x, y | x in Order(a) && y in Order(a) && Level(a, x, y) :: StandsFirst(a, x, y) == StandsFirst(b, x, y)
  }

  /**
   * Two orders of the same evidence give one ranked list if and only if every two keys
   * of equal score, path and line stand in the same order, which depends on two things:
   * whether the first evidence of a key has a symbol name, and, for two keys where it
   * has none, which of them appeared first.
   */
  lemma OrderShowsInTiesOnly(a: seq<Evidence>, b: seq<Evidence>)
    requires multiset(a) == multiset(b)
    ensures SameRanking(a, b) <==> AgreeOnLevel(a, b)
  {
    SameRankingExactly(a, b);
    forall x, y | x in Order(a) && y in Order(a)
      ensures Before(a, x, y) == Before(b, x, y)
        <==> (Level(a, x, y) ==> StandsFirst(a, x, y) == StandsFirst(b, x, y))
    {
      PairAgrees(a, b, x, y);
    }
  }

  lemma PairAgrees(a: seq<Evidence>, b: seq<Evidence>, x: Key, y: Key)
    requires multiset(a) == multiset(b) && x in Order(a) && y in Order(a)
    ensures Before(a, x, y) == Before(b, x, y) <==> (Level(a, x, y) ==> StandsFirst(a, x, y) == StandsFirst(b, x, y))
  {
    AccumulationIsOrderFree(a, b, x);
    AccumulationIsOrderFree(a, b, y);
    if Level(a, x, y) {
      LevelOrder(a, x, y);
      LevelOrder(b, x, y);
    } else {
      OffLevelOrder(a, b, x, y);
    }
  }

  // ---------------------------------------------------------------------
  // The ranked list, field by field
  // ---------------------------------------------------------------------

  /** Higher score first; on equal scores by path, then by line, then by symbol. */
  predicate Outranks(a: Candidate, b: Candidate)
  {
    || a.score > b.score
    || (a.score == b.score
        && (|| (a.path != b.path && StringLe(a.path, b.path))
            || (a.path == b.path && (a.line < b.line || (a.line == b.line && StringLe(a.symbol, b.symbol))))))
  }

  lemma LeMeansOutranks(a: Candidate, b: Candidate)
    ensures CandidateLe(a, b) <==> Outranks(a, b)
  {
  }

  /** The list is in that order, and no candidate left out belongs before a listed one. */
  ghost predicate BestFirst(all: seq<Candidate>, limit: int)
  {
    var top := SliceTo(all, limit);
    && (forall i, j | 0 <= i < j < |top| :: Outranks(top[i], top[j]))
    && (forall i, j | 0 <= i < |top| <= j < |all| :: Outranks(top[i], all[j]))
  }

  lemma RankedByFields(evidence: seq<Evidence>, limit: int)
    ensures BestFirst(Ranked(evidence), limit)
    ensures multiset(Ranked(evidence)) == multiset(CandidatesOf(evidence))
  {
    RankedHolds(evidence);
    SortedIsBestFirst(Ranked(evidence), limit);
  }

  lemma SortedIsBestFirst(all: seq<Candidate>, limit: int)
    requires Sorted(all, CandidateLe)
    ensures BestFirst(all, limit)
  {
    forall i, j | 0 <= i < j < |all| ensures Outranks(all[i], all[j]) {
      LeMeansOutranks(all[i], all[j]);
    }
  }

  /** e is the first evidence of the key. */
  ghost predicate IsFirst(evidence: seq<Evidence>, key: Key, e: Evidence)
  {
    exists i :: 0 <= i < |evidence| && evidence[i] == e && e.GroupKey() == key
      && forall j | 0 <= j < i :: evidence[j].GroupKey() != key
  }

  lemma {:induction false} FirstIsFirst(evidence: seq<Evidence>, key: Key)
    ensures FirstFor(evidence, key).Some? ==> IsFirst(evidence, key, FirstFor(evidence, key).value)
    ensures FirstFor(evidence, key).None? ==> forall j | 0 <= j < |evidence| :: evidence[j].GroupKey() != key
  {
    if evidence != [] {
      FirstIsFirst(evidence[..|evidence| - 1], key);
      assert evidence == evidence[..|evidence| - 1] + [evidence[|evidence| - 1]];
    }
  }

  /** The i-th evidence has the first snippet of the key. */
  predicate FirstSnippetAt(evidence: seq<Evidence>, key: Key, i: nat)
  {
    && i < |evidence| && evidence[i].GroupKey() == key && evidence[i].snippet != ""
    && forall j | 0 <= j < i && evidence[j].GroupKey() == key :: evidence[j].snippet == ""
  }

  /** The snippet kept is the first one of the key that is not empty. */
  lemma {:induction false} SnippetIsFirst(evidence: seq<Evidence>, key: Key) returns (i: nat)
    ensures var snippet := SnippetFor(evidence, key);
      if snippet == "" then forall j | 0 <= j < |evidence| && evidence[j].GroupKey() == key :: evidence[j].snippet == ""
      else FirstSnippetAt(evidence, key, i) && evidence[i].snippet == snippet
  {
    i := 0;
    if evidence != [] {
      var head := evidence[..|evidence| - 1];
      i := SnippetIsFirst(head, key);
      assert evidence == head + [evidence[|evidence| - 1]];
      if SnippetFor(head, key) == "" {
        i := |head|;
      }
    }
  }

  /** The i-th evidence is the last of the key with this metadata entry. */
  predicate LastEntryAt(evidence: seq<Evidence>, key: Key, name: string, i: nat)
  {
    && i < |evidence| && evidence[i].GroupKey() == key && name in evidence[i].metadata
    && forall j | i < j < |evidence| && evidence[j].GroupKey() == key :: name !in evidence[j].metadata
  }

  /** A metadata entry has the value of the last evidence of the key that carries it. */
  lemma {:induction false} MetadataIsLast(evidence: seq<Evidence>, key: Key, name: string) returns (i: nat)
    ensures var metadata := MetadataFor(evidence, key);
      if name in metadata then LastEntryAt(evidence, key, name, i) && metadata[name] == evidence[i].metadata[name]
      else forall j | 0 <= j < |evidence| && evidence[j].GroupKey() == key :: name !in evidence[j].metadata
  {
    i := 0;
    if evidence != [] {
      var head, last := evidence[..|evidence| - 1], evidence[|evidence| - 1];
      i := MetadataIsLast(head, key, name);
      assert evidence == head + [last];
      if last.GroupKey() == key && name in last.metadata {
        i := |head|;
      }
    }
  }

  /** The reasons of a key are those of its evidence, each once. */
  lemma {:induction false} ReasonsAreThose(evidence: seq<Evidence>, key: Key, reason: string)
    ensures Distinct(ReasonsFor(evidence, key))
    ensures reason in ReasonsFor(evidence, key) <==>
      reason != "" && exists i :: 0 <= i < |evidence| && evidence[i].GroupKey() == key && evidence[i].reason == reason
  {
    if evidence != [] {
      var head := evidence[..|evidence| - 1];
      ReasonsAreThose(head, key, reason);
      assert evidence == head + [evidence[|evidence| - 1]];
      if i :| 0 <= i < |head| && head[i].GroupKey() == key && head[i].reason == reason {
        assert evidence[i] == head[i];
      }
    }
  }
}
