// Long-term memory retrieval: weighted term scores against a double sum, and the
// top-k selection.
module Retriever {
  import opened Text
  import opened Ordering

  datatype MemoryRecord = MemoryRecord(
    id: string, createdAt: string, verified: bool, taskType: string, language: string, goal: string,
    symptoms: seq<string>, rootCause: string, strategy: string, applicability: string,
    changedFiles: seq<string>, tests: seq<string>)

  /** Tokenising and Path.stem stay abstract. */
  datatype Tokenizer = Tokenizer(tokens: string -> seq<string>, stem: string -> string)

  /** One call of _add_terms. */
  datatype Contribution = Contribution(terms: seq<string>, weight: int)

  // ---------------------------------------------------------------------
  // Reference scores
  // ---------------------------------------------------------------------

  function Occurrences(terms: seq<string>, term: string): nat
  {
    if terms == [] then 0
    else Occurrences(terms[..|terms| - 1], term) + if terms[|terms| - 1] == term then 1 else 0
  }

  function Weight(contributions: seq<Contribution>, term: string): int
  {
    if contributions == [] then 0
    else
      var c := contributions[|contributions| - 1];
      Weight(contributions[..|contributions| - 1], term) + c.weight * Occurrences(c.terms, term)
  }

  function TermScore(query: seq<string>, contributions: seq<Contribution>): int
  {
    if query == [] then 0
    else TermScore(query[..|query| - 1], contributions) + Weight(contributions, query[|query| - 1])
  }

  function Each(values: seq<string>, t: Tokenizer, weight: int): seq<Contribution>
  {
    seq(|values|, i requires 0 <= i < |values| => Contribution(t.tokens(values[i]), weight))
  }

  function FileTerms(files: seq<string>, t: Tokenizer): seq<Contribution>
  {
    if files == [] then []
    else
      var file := files[|files| - 1];
      FileTerms(files[..|files| - 1], t)
        + [Contribution(t.tokens(file), 18), Contribution(t.tokens(t.stem(file)), 18)]
  }

  /** The field weights. */
  function Contributions(r: MemoryRecord, t: Tokenizer): seq<Contribution>
  {
    [Contribution(t.tokens(r.goal), 10), Contribution(t.tokens(r.taskType), 12),
     Contribution(t.tokens(r.language), 14), Contribution(t.tokens(r.rootCause), 8),
     Contribution(t.tokens(r.strategy), 8), Contribution(t.tokens(r.applicability), 8)]
    + Each(r.symptoms, t, 14) + FileTerms(r.changedFiles, t) + Each(r.tests, t, 16)
  }

  function Score(r: MemoryRecord, query: seq<string>, t: Tokenizer): int
  {
    TermScore(query, Contributions(r, t)) + if r.language != "unknown" && r.language in query then 20 else 0
  }

  // ---------------------------------------------------------------------
  // The accumulation
  // ---------------------------------------------------------------------

  function Get(weights: map<string, int>, term: string): int
  {
    if term in weights then weights[term] else 0
  }

  /** The accumulated dictionary holds every term's weight. */
  ghost predicate Holds(weights: map<string, int>, contributions: seq<Contribution>)
  {
    forall term :: Get(weights, term) == Weight(contributions, term)
  }

  /** The dictionary is the target plus the weight of every occurrence among the terms. */
  ghost predicate Adds(weights: map<string, int>, target: map<string, int>, terms: seq<string>, weight: int)
  {
    forall term :: Get(weights, term) == Get(target, term) + weight * Occurrences(terms, term)
  }

  lemma AddsNext(weights: map<string, int>, target: map<string, int>, terms: seq<string>, weight: int, i: nat)
    requires i < |terms| && Adds(weights, target, terms[..i], weight)
    ensures Adds(weights[terms[i] := Get(weights, terms[i]) + weight], target, terms[..i + 1], weight)
  {
    var next := weights[terms[i] := Get(weights, terms[i]) + weight];
    forall term ensures Get(next, term) == Get(target, term) + weight * Occurrences(terms[..i + 1], term) {
      OccurrencesNext(terms, term, i);
      var n := Occurrences(terms[..i], term);
      assert Get(weights, term) == Get(target, term) + weight * n;
      assert weight * (n + 1) == weight * n + weight;
    }
  }

  lemma OccurrencesNext(terms: seq<string>, term: string, i: nat)
    requires i < |terms|
    ensures Occurrences(terms[..i + 1], term)
      == Occurrences(terms[..i], term) + if terms[i] == term then 1 else 0
  {
    assert terms[..i + 1][..i] == terms[..i];
  }

  method AddTerms(target: map<string, int>, terms: seq<string>, weight: int) returns (weights: map<string, int>)
    ensures forall term :: Get(weights, term) == Get(target, term) + weight * Occurrences(terms, term)
  {
    weights := target;
    for i := 0 to |terms|
      invariant Adds(weights, target, terms[..i], weight)
    {
      AddsNext(weights, target, terms, weight, i);
      weights := weights[terms[i] := Get(weights, terms[i]) + weight];
    }
    assert terms[..|terms|] == terms;
  }

  method AddAll(target: map<string, int>, ghost before: seq<Contribution>, contributions: seq<Contribution>)
    returns (weights: map<string, int>)
    requires Holds(target, before)
    ensures Holds(weights, before + contributions)
  {
    weights := target;
    assert before + contributions[..0] == before;
    for i := 0 to |contributions|
      invariant Holds(weights, before + contributions[..i])
    {
      var c := contributions[i];
      ghost var done := before + contributions[..i];
      assert before + contributions[..i + 1] == done + [c];
      assert (done + [c])[..|done|] == done;
      weights := AddTerms(weights, c.terms, c.weight);
    }
    assert contributions[..|contributions|] == contributions;
  }

  method RecordTerms(r: MemoryRecord, t: Tokenizer) returns (weights: map<string, int>)
    ensures Holds(weights, Contributions(r, t))
  {
    var fields := [Contribution(t.tokens(r.goal), 10), Contribution(t.tokens(r.taskType), 12),
                   Contribution(t.tokens(r.language), 14), Contribution(t.tokens(r.rootCause), 8),
                   Contribution(t.tokens(r.strategy), 8), Contribution(t.tokens(r.applicability), 8)];
    ghost var done: seq<Contribution> := [];
    weights := map[];
    weights := AddAll(weights, done, fields);
    done := done + fields;
    weights := AddAll(weights, done, Each(r.symptoms, t, 14));
    done := done + Each(r.symptoms, t, 14);
    weights := AddAll(weights, done, FileTerms(r.changedFiles, t));
    done := done + FileTerms(r.changedFiles, t);
    weights := AddAll(weights, done, Each(r.tests, t, 16));
    assert done + Each(r.tests, t, 16) == Contributions(r, t);
  }

  method ScoreRecord(r: MemoryRecord, query: seq<string>, t: Tokenizer) returns (score: int)
    ensures score == Score(r, query, t)
  {
    var weights := RecordTerms(r, t);
    ghost var contributions := Contributions(r, t);
    score := 0;
    for i := 0 to |query|
      invariant score == TermScore(query[..i], contributions)
    {
      assert query[..i + 1][..i] == query[..i];
      assert Get(weights, query[i]) == Weight(contributions, query[i]);
      if query[i] !in weights {
        continue;
      }
      score := score + weights[query[i]];
    }
    assert query[..|query|] == query;
    if r.language != "unknown" && r.language in query {
      score := score + 20;
    }
  }

  /** Field by field: the score is the sum over fields of weight times matched occurrences. */
  function FieldScore(query: seq<string>, c: Contribution): int
  {
    if query == [] then 0
    else FieldScore(query[..|query| - 1], c) + c.weight * Occurrences(c.terms, query[|query| - 1])
  }

  function SumOverFields(query: seq<string>, contributions: seq<Contribution>): int
  {
    if contributions == [] then 0
    else
      SumOverFields(query, contributions[..|contributions| - 1])
        + FieldScore(query, contributions[|contributions| - 1])
  }

  lemma {:induction false} ExchangeSums(query: seq<string>, contributions: seq<Contribution>)
    ensures TermScore(query, contributions) == SumOverFields(query, contributions)
    decreases |query|, |contributions|
  {
    if query == [] {
      NoQuery(contributions);
    } else {
      var head, last := query[..|query| - 1], query[|query| - 1];
      ExchangeSums(head, contributions);
      OneMoreTerm(head, last, contributions);
      assert query == head + [last];
    }
  }

  lemma {:induction false} NoQuery(contributions: seq<Contribution>)
    ensures SumOverFields([], contributions) == 0
  {
    if contributions != [] {
      NoQuery(contributions[..|contributions| - 1]);
    }
  }

  lemma {:induction false} OneMoreTerm(query: seq<string>, term: string, contributions: seq<Contribution>)
    ensures SumOverFields(query + [term], contributions)
      == SumOverFields(query, contributions) + Weight(contributions, term)
  {
    if contributions != [] {
      OneMoreTerm(query, term, contributions[..|contributions| - 1]);
      assert (query + [term])[..|query|] == query;
    }
  }

  // ---------------------------------------------------------------------
  // The score, field by field
  // ---------------------------------------------------------------------

  /** How often query terms occur among the tokens of a text, counted with the query's repetitions. */
  function Matches(query: seq<string>, terms: seq<string>): nat
  {
    if query == [] then 0
    else Matches(query[..|query| - 1], terms) + Occurrences(terms, query[|query| - 1])
  }

  function MatchesInEach(query: seq<string>, values: seq<string>, t: Tokenizer): nat
  {
    if values == [] then 0
    else MatchesInEach(query, values[..|values| - 1], t) + Matches(query, t.tokens(values[|values| - 1]))
  }

  /** A changed file counts by its path and once more by its stem. */
  function MatchesInFiles(query: seq<string>, files: seq<string>, t: Tokenizer): nat
  {
    if files == [] then 0
    else
      MatchesInFiles(query, files[..|files| - 1], t)
        + Matches(query, t.tokens(files[|files| - 1])) + Matches(query, t.tokens(t.stem(files[|files| - 1])))
  }

  lemma {:induction false} FieldIsWeighted(query: seq<string>, c: Contribution)
    ensures FieldScore(query, c) == c.weight * Matches(query, c.terms)
  {
    if query != [] {
      var n := Matches(query[..|query| - 1], c.terms);
      FieldIsWeighted(query[..|query| - 1], c);
      assert c.weight * (n + Occurrences(c.terms, query[|query| - 1]))
          == c.weight * n + c.weight * Occurrences(c.terms, query[|query| - 1]);
    }
  }

  lemma {:induction false} SumConcat(query: seq<string>, a: seq<Contribution>, b: seq<Contribution>)
    ensures SumOverFields(query, a + b) == SumOverFields(query, a) + SumOverFields(query, b)
  {
    if b == [] {
      assert a + b == a;
    } else {
      SumConcat(query, a, b[..|b| - 1]);
      assert (a + b)[..|a + b| - 1] == a + b[..|b| - 1];
    }
  }

  lemma SumOfOne(query: seq<string>, terms: seq<string>, weight: int)
    ensures SumOverFields(query, [Contribution(terms, weight)]) == weight * Matches(query, terms)
  {
    FieldIsWeighted(query, Contribution(terms, weight));
    assert [Contribution(terms, weight)][..0] == [];
  }

  lemma {:induction false} SumOfEach(query: seq<string>, values: seq<string>, t: Tokenizer, weight: int)
    ensures SumOverFields(query, Each(values, t, weight)) == weight * MatchesInEach(query, values, t)
  {
    if values != [] {
      var head, last := values[..|values| - 1], values[|values| - 1];
      SumOfEach(query, head, t, weight);
      SumOfOne(query, t.tokens(last), weight);
      assert Each(values, t, weight) == Each(head, t, weight) + [Contribution(t.tokens(last), weight)];
      SumConcat(query, Each(head, t, weight), [Contribution(t.tokens(last), weight)]);
      assert weight * (MatchesInEach(query, head, t) + Matches(query, t.tokens(last)))
          == weight * MatchesInEach(query, head, t) + weight * Matches(query, t.tokens(last));
    }
  }

  lemma {:induction false} SumOfFiles(query: seq<string>, files: seq<string>, t: Tokenizer)
    ensures SumOverFields(query, FileTerms(files, t)) == 18 * MatchesInFiles(query, files, t)
  {
    if files != [] {
      var head, last := files[..|files| - 1], files[|files| - 1];
      var path, stem := Contribution(t.tokens(last), 18), Contribution(t.tokens(t.stem(last)), 18);
      SumOfFiles(query, head, t);
      SumOfOne(query, path.terms, 18);
      SumOfOne(query, stem.terms, 18);
      SumConcat(query, FileTerms(head, t), [path, stem]);
      assert [path, stem] == [path] + [stem];
      SumConcat(query, [path], [stem]);
    }
  }

  /** The fields that are one text each. */
  lemma SumOfTexts(r: MemoryRecord, query: seq<string>, t: Tokenizer)
    ensures var texts := [Contribution(t.tokens(r.goal), 10), Contribution(t.tokens(r.taskType), 12),
                          Contribution(t.tokens(r.language), 14), Contribution(t.tokens(r.rootCause), 8),
                          Contribution(t.tokens(r.strategy), 8), Contribution(t.tokens(r.applicability), 8)];
      SumOverFields(query, texts)
        == 10 * Matches(query, t.tokens(r.goal)) + 12 * Matches(query, t.tokens(r.taskType))
           + 14 * Matches(query, t.tokens(r.language))
           + 8 * (Matches(query, t.tokens(r.rootCause)) + Matches(query, t.tokens(r.strategy))
                  + Matches(query, t.tokens(r.applicability)))
  {
    var a, b, c := Contribution(t.tokens(r.goal), 10), Contribution(t.tokens(r.taskType), 12), Contribution(t.tokens(r.language), 14);
    var d, e, f := Contribution(t.tokens(r.rootCause), 8), Contribution(t.tokens(r.strategy), 8), Contribution(t.tokens(r.applicability), 8);
    assert [a, b, c, d, e, f] == [a] + [b] + [c] + [d] + [e] + [f];
    SumConcat(query, [a] + [b] + [c] + [d] + [e], [f]);
    SumConcat(query, [a] + [b] + [c] + [d], [e]);
    SumConcat(query, [a] + [b] + [c], [d]);
    SumConcat(query, [a] + [b], [c]);
    SumConcat(query, [a], [b]);
    SumOfOne(query, a.terms, 10);
    SumOfOne(query, b.terms, 12);
    SumOfOne(query, c.terms, 14);
    SumOfOne(query, d.terms, 8);
    SumOfOne(query, e.terms, 8);
    SumOfOne(query, f.terms, 8);
  }

  /** The score of a record: each field by its weight, and twenty for a known language that is asked for. */
  lemma ScoreByField(r: MemoryRecord, query: seq<string>, t: Tokenizer)
    ensures Score(r, query, t)
      == 10 * Matches(query, t.tokens(r.goal)) + 12 * Matches(query, t.tokens(r.taskType))
         + 14 * Matches(query, t.tokens(r.language))
         + 8 * (Matches(query, t.tokens(r.rootCause)) + Matches(query, t.tokens(r.strategy))
                + Matches(query, t.tokens(r.applicability)))
         + 14 * MatchesInEach(query, r.symptoms, t) + 18 * MatchesInFiles(query, r.changedFiles, t)
         + 16 * MatchesInEach(query, r.tests, t)
         + (if r.language != "unknown" && r.language in query then 20 else 0)
  {
    var texts := [Contribution(t.tokens(r.goal), 10), Contribution(t.tokens(r.taskType), 12),
                  Contribution(t.tokens(r.language), 14), Contribution(t.tokens(r.rootCause), 8),
                  Contribution(t.tokens(r.strategy), 8), Contribution(t.tokens(r.applicability), 8)];
    var symptoms, files, tests := Each(r.symptoms, t, 14), FileTerms(r.changedFiles, t), Each(r.tests, t, 16);
    ExchangeSums(query, Contributions(r, t));
    SumOfTexts(r, query, t);
    SumOfEach(query, r.symptoms, t, 14);
    SumOfFiles(query, r.changedFiles, t);
    SumOfEach(query, r.tests, t, 16);
    SumConcat(query, texts + symptoms + files, tests);
    SumConcat(query, texts + symptoms, files);
    SumConcat(query, texts, symptoms);
  }

  // ---------------------------------------------------------------------
  // Selection
  // ---------------------------------------------------------------------

  datatype Hit = Hit(record: MemoryRecord, score: int)

  /** key = (-score, created_at, memory_id) */
  predicate HitLe(a: Hit, b: Hit)
  {
    if a.score != b.score then a.score > b.score
    else ThenBy(a.record.createdAt, b.record.createdAt, StringLe(a.record.id, b.record.id))
  }

  lemma HitOrder()
    ensures TotalOrder(HitLe)
  {
    forall a: Hit, b: Hit ensures HitLe(a, b) || HitLe(b, a) {
      StringLeTotal(a.record.createdAt, b.record.createdAt);
      StringLeTotal(a.record.id, b.record.id);
    }
    forall a: Hit, b: Hit, c: Hit | HitLe(a, b) && HitLe(b, c) ensures HitLe(a, c) {
      HitLeTransitive(a, b, c);
    }
  }

  lemma HitLeTransitive(a: Hit, b: Hit, c: Hit)
    requires HitLe(a, b) && HitLe(b, c)
    ensures HitLe(a, c)
  {
    if a.score == b.score == c.score {
      var x, y, z := a.record.createdAt, b.record.createdAt, c.record.createdAt;
      if StringLe(x, y) && StringLe(y, z) {
        StringLeTransitive(x, y, z);
      }
      StringLeTotal(x, y);
      StringLeTotal(y, z);
      StringLeTotal(x, z);
      if StringLe(a.record.id, b.record.id) && StringLe(b.record.id, c.record.id) {
        StringLeTransitive(a.record.id, b.record.id, c.record.id);
      }
    }
  }

  datatype Report = Report(hits: seq<Hit>, candidates: nat, filtered: nat, threshold: nat)

  /** int(limit or default_limit or 3) */
  function EffectiveLimit(limit: Option<int>, defaultLimit: int): int
  {
    if limit.Some? && limit.value != 0 then limit.value
    else if defaultLimit != 0 then defaultLimit
    else 3
  }

  function AtLeast(hits: seq<Hit>, threshold: int): seq<Hit>
  {
    if hits == [] then []
    else
      AtLeast(hits[..|hits| - 1], threshold)
        + if hits[|hits| - 1].score >= threshold then [hits[|hits| - 1]] else []
  }

  function Scorer(query: seq<string>, t: Tokenizer): MemoryRecord -> int
  {
    r => Score(r, query, t)
  }

  /** The verified records with a positive score. */
  function CandidatesBy(records: seq<MemoryRecord>, score: MemoryRecord -> int): seq<Hit>
  {
    if records == [] then []
    else
      var r := records[|records| - 1];
      CandidatesBy(records[..|records| - 1], score) + if r.verified && score(r) > 0 then [Hit(r, score(r))] else []
  }

  function Candidates(records: seq<MemoryRecord>, query: seq<string>, t: Tokenizer): seq<Hit>
  {
    CandidatesBy(records, Scorer(query, t))
  }

  method Retrieve(records: seq<MemoryRecord>, query: seq<string>, t: Tokenizer,
                  limit: Option<int>, minScore: int, defaultLimit: int) returns (report: Report)
    ensures var hits := Sort(Candidates(records, query, t), HitLe);
      && report.threshold == (if minScore < 0 then 0 else minScore)
      && report.hits == SliceTo(AtLeast(hits, report.threshold), EffectiveLimit(limit, defaultLimit))
      && report.candidates == |Candidates(records, query, t)|
      && report.candidates == |AtLeast(hits, report.threshold)| + report.filtered
    ensures Lists(report.hits, records, Scorer(query, t), report.threshold)
    ensures NoneMissing(report.hits, records, Scorer(query, t), report.threshold)
  {
    var threshold := if minScore < 0 then 0 else minScore;
    var hits: seq<Hit> := [];
    for i := 0 to |records|
      invariant hits == Candidates(records[..i], query, t)
    {
      assert records[..i + 1][..i] == records[..i];
      if records[i].verified {
        var score := ScoreRecord(records[i], query, t);
        if score > 0 {
          hits := hits + [Hit(records[i], score)];
        }
      }
    }
    assert records[..|records|] == records;
    ghost var found := hits;
    hits := Sort(hits, HitLe);
    HitOrder();
    SortSorts(found, HitLe);
    assert |multiset(hits)| == |multiset(found)|;
    var selected := AtLeast(hits, threshold);
    AtLeastIsPrefix(hits, threshold);
    RetrieveLists(records, Scorer(query, t), threshold, EffectiveLimit(limit, defaultLimit));
    report := Report(SliceTo(selected, EffectiveLimit(limit, defaultLimit)), |hits|, |hits| - |selected|, threshold);
  }

  /** The kept hits are the part of the list at or above the threshold. */
  ghost predicate Cuts(kept: seq<Hit>, hits: seq<Hit>, threshold: int)
  {
    && kept <= hits
    && (forall i | 0 <= i < |kept| :: kept[i].score >= threshold)
    && (forall i | |kept| <= i < |hits| :: hits[i].score < threshold)
  }

  /** In score order, the hits at or above a threshold are a prefix. */
  lemma {:induction false} AtLeastIsPrefix(hits: seq<Hit>, threshold: int)
    requires Sorted(hits, HitLe)
    ensures Cuts(AtLeast(hits, threshold), hits, threshold)
  {
    if hits != [] {
      var head, last := hits[..|hits| - 1], hits[|hits| - 1];
      assert hits == head + [last];
      AtLeastIsPrefix(head, threshold);
      if last.score >= threshold {
        HeadAtLeast(hits, threshold);
        CutsAll(AtLeast(head, threshold), head, threshold);
        CutsWhole(hits, threshold);
      } else {
        CutsBefore(AtLeast(head, threshold), head, last, threshold);
      }
    }
  }

  lemma CutsAll(kept: seq<Hit>, hits: seq<Hit>, threshold: int)
    requires Cuts(kept, hits, threshold)
    requires forall i | 0 <= i < |hits| :: hits[i].score >= threshold
    ensures kept == hits
  {
    assert hits != [] ==> hits[|hits| - 1].score >= threshold;
  }

  lemma CutsWhole(hits: seq<Hit>, threshold: int)
    requires forall i | 0 <= i < |hits| :: hits[i].score >= threshold
    ensures Cuts(hits, hits, threshold)
  {
  }

  lemma CutsBefore(kept: seq<Hit>, head: seq<Hit>, last: Hit, threshold: int)
    requires Cuts(kept, head, threshold) && last.score < threshold
    ensures Cuts(kept, head + [last], threshold)
  {
  }

  lemma HeadAtLeast(hits: seq<Hit>, threshold: int)
    requires hits != [] && Sorted(hits, HitLe) && hits[|hits| - 1].score >= threshold
    ensures forall i | 0 <= i < |hits| :: hits[i].score >= threshold
  {
    assert forall i | 0 <= i < |hits| - 1 :: HitLe(hits[i], hits[|hits| - 1]);
  }

  /**
   * Whatever the limit, the report holds the best hits: as many as the slice takes, all
   * at or above the threshold, and every other candidate at or above the threshold
   * ranks behind each of them.
   */
  lemma SelectionIsTopK(found: seq<Hit>, threshold: int, k: int)
    ensures var hits := Sort(found, HitLe);
      var kept := AtLeast(hits, threshold);
      var top := SliceTo(kept, k);
      && multiset(hits) == multiset(found)
      && top <= kept <= hits && |top| == SliceLength(|kept|, k)
      && (forall i | 0 <= i < |top| :: top[i].score >= threshold)
      && (forall i, j | 0 <= i < |top| <= j < |hits| && hits[j].score >= threshold :: HitLe(top[i], hits[j]))
  {
    HitOrder();
    SortSorts(found, HitLe);
    AtLeastIsPrefix(Sort(found, HitLe), threshold);
  }

  // ---------------------------------------------------------------------
  // The report, in terms of the records
  // ---------------------------------------------------------------------

  /** A record that can be a hit. */
  predicate Relevant(r: MemoryRecord, score: MemoryRecord -> int)
  {
    r.verified && score(r) > 0
  }

  /** Every relevant record is a candidate, as often as it is stored, and nothing else is. */
  lemma {:induction false} CandidatesExactly(records: seq<MemoryRecord>, score: MemoryRecord -> int, h: Hit)
    ensures multiset(CandidatesBy(records, score))[h] ==
      if h.score == score(h.record) && Relevant(h.record, score) then multiset(records)[h.record] else 0
  {
    if records != [] {
      var head, last := records[..|records| - 1], records[|records| - 1];
      CandidatesExactly(head, score, h);
      assert records == head + [last];
      assert multiset(records) == multiset(head) + multiset{last};
    }
  }

  /** Higher score first, then the earlier record, then the smaller id. */
  predicate Precedes(a: Hit, b: Hit)
  {
    || a.score > b.score
    || (a.score == b.score
        && (|| (a.record.createdAt != b.record.createdAt && StringLe(a.record.createdAt, b.record.createdAt))
            || (a.record.createdAt == b.record.createdAt && StringLe(a.record.id, b.record.id))))
  }

  /** The report lists hits for relevant records at or above the threshold, best first. */
  ghost predicate Lists(top: seq<Hit>, records: seq<MemoryRecord>, score: MemoryRecord -> int, threshold: int)
  {
    && (forall h | h in top ::
          h.record in records && Relevant(h.record, score) && h.score == score(h.record) >= threshold)
    && (forall i, j | 0 <= i < j < |top| :: Precedes(top[i], top[j]))
  }

  /** A relevant record at or above the threshold is listed, or comes after everything that is. */
  ghost predicate NoneMissing(top: seq<Hit>, records: seq<MemoryRecord>, score: MemoryRecord -> int, threshold: int)
  {
    forall r, i | r in records && Relevant(r, score) && score(r) >= threshold
      && Hit(r, score(r)) !in top && 0 <= i < |top| :: Precedes(top[i], Hit(r, score(r)))
  }

  /** What the report lists, and that nothing better is missing, whatever the limit. */
  lemma RetrieveLists(records: seq<MemoryRecord>, score: MemoryRecord -> int, threshold: int, k: int)
    ensures var top := SliceTo(AtLeast(Sort(CandidatesBy(records, score), HitLe), threshold), k);
      Lists(top, records, score, threshold) && NoneMissing(top, records, score, threshold)
  {
    var found := CandidatesBy(records, score);
    var hits := Sort(found, HitLe);
    var top := SliceTo(AtLeast(hits, threshold), k);
    SelectionIsTopK(found, threshold, k);
    HitOrder();
    SortSorts(found, HitLe);
    ListedAre(records, score, hits, top);
    MissingAre(records, score, threshold, hits, top);
  }

  lemma ListedAre(records: seq<MemoryRecord>, score: MemoryRecord -> int, hits: seq<Hit>, top: seq<Hit>)
    requires multiset(hits) == multiset(CandidatesBy(records, score)) && top <= hits
    ensures forall h | h in top :: h.record in records && Relevant(h.record, score) && h.score == score(h.record)
  {
    forall h | h in top ensures h.record in records && Relevant(h.record, score) && h.score == score(h.record) {
      assert h in multiset(hits);
      CandidatesExactly(records, score, h);
      assert h.record in multiset(records);
    }
  }

  lemma MissingAre(
      records: seq<MemoryRecord>, score: MemoryRecord -> int, threshold: int, hits: seq<Hit>, top: seq<Hit>)
    requires multiset(hits) == multiset(CandidatesBy(records, score)) && top <= hits
    requires forall i, j | 0 <= i < |top| <= j < |hits| && hits[j].score >= threshold :: HitLe(top[i], hits[j])
    ensures NoneMissing(top, records, score, threshold)
  {
    forall r, i | r in records && Relevant(r, score) && score(r) >= threshold
      && Hit(r, score(r)) !in top && 0 <= i < |top|
      ensures Precedes(top[i], Hit(r, score(r)))
    {
      var h := Hit(r, score(r));
      CandidatesExactly(records, score, h);
      assert h in multiset(hits);
      var j :| 0 <= j < |hits| && hits[j] == h;
      assert j >= |top|;
    }
  }

  /** The limit in force is the first of the given one, the configured one and three that is not zero. */
  lemma LimitInForce(limit: Option<int>, defaultLimit: int)
    ensures var given := if limit.Some? then limit.value else 0;
      && EffectiveLimit(limit, defaultLimit) != 0
      && EffectiveLimit(limit, defaultLimit) in [given, defaultLimit, 3]
      && (given != 0 ==> EffectiveLimit(limit, defaultLimit) == given)
      && (given == 0 && defaultLimit != 0 ==> EffectiveLimit(limit, defaultLimit) == defaultLimit)
  {
  }
}
