/** The section-weighted re-ranker and the post-search step of vector
    retrieval (backend-service revision). */
module Retrieval {
  import opened Wrappers
  import opened Strings
  import opened Sorting
  import opened Records
  import opened Seqs

  /** Multipliers that favour methods and results over general prose. */
  const SectionWeights: map<string, real> := map[
    "abstract" := 0.9,
    "introduction" := 1.0,
    "methods" := 1.2,
    "methodology" := 1.2,
    "results" := 1.1,
    "discussion" := 1.05,
    "conclusion" := 1.0,
    "unknown" := 0.9
  ]

  /** The weight of a hit's section: the lower-cased name looked up in the
      table, 1.0 when the name is missing, empty or not listed. No listed
      weight is zero, so the `|| 1.0` fallback only fires on a miss. */
  function SectionWeight(section: Option<string>): (w: real)
    ensures w > 0.0
  {
    var name := Lower(OrEmpty(section));
    if name in SectionWeights then SectionWeights[name] else 1.0
  }

  /** The hit with its score multiplied by its section's weight. */
  function Weighted(h: Hit): (r: Hit)
    ensures r.id == h.id && r.payload == h.payload
    ensures r.score == h.score * SectionWeight(h.payload.section)
  {
    h.(score := h.score * SectionWeight(h.payload.section))
  }

  function WeightAll(items: seq<Hit>): (r: seq<Hit>)
    ensures |r| == |items|
    ensures forall i | 0 <= i < |items| :: r[i] == Weighted(items[i])
  {
    seq(|items|, i requires 0 <= i < |items| => Weighted(items[i]))
  }

  /** Weights every hit, stable-sorts by weighted score descending and keeps
      the first `max(topK, 1)`. */
  function Rerank(items: seq<Hit>, topK: int): (r: seq<Hit>)
    ensures |r| == Min(|items|, Max(topK, 1))
  {
    Take(Sort(WeightAll(items), Score), Max(topK, 1))
  }

  /** The weights of the listed sections, in any letter case. */
  lemma SectionWeightTable()
    ensures SectionWeight(Some("Abstract")) == 0.9
    ensures SectionWeight(Some("abstract")) == 0.9
    ensures SectionWeight(Some("Introduction")) == 1.0
    ensures SectionWeight(Some("Methods")) == 1.2
    ensures SectionWeight(Some("Methodology")) == 1.2
    ensures SectionWeight(Some("Results")) == 1.1
    ensures SectionWeight(Some("Discussion")) == 1.05
    ensures SectionWeight(Some("Conclusion")) == 1.0
    ensures SectionWeight(Some("Unknown")) == 0.9
  {
    assert Lower("Abstract") == "abstract";
    assert Lower("abstract") == "abstract";
    assert Lower("Introduction") == "introduction";
    assert Lower("Methods") == "methods";
    assert Lower("Methodology") == "methodology";
    assert Lower("Results") == "results";
    assert Lower("Discussion") == "discussion";
    assert Lower("Conclusion") == "conclusion";
    assert Lower("Unknown") == "unknown";
  }

  /** A missing, empty or unlisted section weighs 1.0. */
  lemma SectionWeightFallback()
    ensures SectionWeight(None) == 1.0
    ensures SectionWeight(Some("")) == 1.0
    ensures SectionWeight(Some("References")) == 1.0
  {
    assert Lower("References") == "references";
    assert Lower("") == "";
  }

  /** The lookup ignores ASCII case. */
  lemma SectionWeightCaseInsensitive(name: string)
    ensures SectionWeight(Some(name)) == SectionWeight(Some(Lower(name)))
  {
    LowerNoUpper(name);
    LowerNoUpper(Lower(name));
  }

  /** The output scores are non-increasing. */
  lemma RerankSorted(items: seq<Hit>, topK: int)
    ensures SortedDesc(Rerank(items, topK), Score)
  {
    SortSorted(WeightAll(items), Score);
  }

  /** Every output hit is an input hit with its score weighted; as a
      multiset the output is part of the weighted input. */
  lemma RerankFromInputs(items: seq<Hit>, topK: int)
    ensures multiset(Rerank(items, topK)) <= multiset(WeightAll(items))
    ensures forall k | 0 <= k < |Rerank(items, topK)| ::
      exists j | 0 <= j < |items| :: Rerank(items, topK)[k] == Weighted(items[j])
  {
    var all := Sort(WeightAll(items), Score);
    var r := Rerank(items, topK);
    assert all == r + all[|r|..];
    assert multiset(all) == multiset(r) + multiset(all[|r|..]);
    forall k | 0 <= k < |r|
      ensures exists j | 0 <= j < |items| :: r[k] == Weighted(items[j])
    {
      assert r[k] in multiset(WeightAll(items));
      var j :| 0 <= j < |items| && WeightAll(items)[j] == r[k];
    }
  }

  /** No dropped hit has a larger weighted score than a kept one. */
  lemma RerankDroppedBelowKept(items: seq<Hit>, topK: int)
    ensures forall d: Hit, k: Hit | d in multiset(WeightAll(items)) - multiset(Rerank(items, topK))
                                 && k in Rerank(items, topK) :: d.score <= k.score
  {
    var all := Sort(WeightAll(items), Score);
    var r := Rerank(items, topK);
    assert r == all[..|r|];
    SortPrefixDropped(WeightAll(items), |r|, Score);
    forall d: Hit, k: Hit | d in multiset(WeightAll(items)) - multiset(r) && k in r
      ensures d.score <= k.score
    {
      assert Score(d) <= Score(k);
    }
  }

  /** Stability: the kept hits of each weighted score appear in their input
      order, as a prefix of all input hits with that score. */
  lemma RerankStable(items: seq<Hit>, topK: int, v: real)
    ensures Ties(Rerank(items, topK), Score, v) <= Ties(WeightAll(items), Score, v)
  {
    var all := Sort(WeightAll(items), Score);
    SortStable(WeightAll(items), Score, v);
    TiesOfPrefix(all, |Rerank(items, topK)|, Score, v);
  }

  const ExampleHits: seq<Hit> := [
    Hit(1, 0.8, Payload("p", None, Some("Abstract"), None, None, None, None, None)),
    Hit(2, 0.79, Payload("p", None, Some("Methods"), None, None, None, None, None)),
    Hit(3, 0.78, Payload("p", None, Some("Results"), None, None, None, None, None))]

  function Ids(hits: seq<Hit>): (r: seq<int>)
    ensures |r| == |hits|
    ensures forall i | 0 <= i < |hits| :: r[i] == hits[i].id
  {
    seq(|hits|, i requires 0 <= i < |hits| => hits[i].id)
  }

  const ExampleWeighted: seq<Hit> := [
    ExampleHits[0].(score := 0.72), ExampleHits[1].(score := 0.948), ExampleHits[2].(score := 0.858)]

  lemma ExampleWeights()
    ensures WeightAll(ExampleHits) == ExampleWeighted
  {
    SectionWeightTable();
  }

  lemma SortTwo(a: Hit, b: Hit)
    ensures Sort([a, b], Score) == if a.score < b.score then [b, a] else [a, b]
  {
    SortPair(a, b, Score);
  }

  lemma SortPair<T>(a: T, b: T, key: T -> real)
    ensures Sort([a, b], key) == if key(a) < key(b) then [b, a] else [a, b]
  {
    assert [a, b][1..] == [b];
    assert Sort([b], key) == [b];
    assert Insert(a, [], key) == [a];
  }

  lemma InsertLast<T>(a: T, b: T, c: T, key: T -> real)
    requires key(a) < key(c) < key(b)
    ensures Insert(a, [b, c], key) == [b, c, a]
  {
    assert Insert(a, [c], key) == [c, a] by {
      assert Insert(a, [], key) == [a];
    }
    assert [b, c][1..] == [c];
    assert [b] + [c, a] == [b, c, a];
  }

  lemma SortTriple<T>(a: T, b: T, c: T, key: T -> real)
    requires key(a) < key(c) < key(b)
    ensures Sort([a, b, c], key) == [b, c, a]
  {
    assert [a, b, c][1..] == [b, c];
    SortPair(b, c, key);
    InsertLast(a, b, c, key);
  }

  lemma ExampleSorted()
    ensures Sort(ExampleWeighted, Score) == [ExampleWeighted[1], ExampleWeighted[2], ExampleWeighted[0]]
  {
    var w := ExampleWeighted;
    assert w == [w[0], w[1], w[2]];
    SortTriple(w[0], w[1], w[2], Score);
  }

  lemma IdsThree(a: Hit, b: Hit, c: Hit)
    ensures Ids([a, b, c]) == [a.id, b.id, c.id]
  {
  }

  /** The case of the backend's unit test: abstract 0.8, methods 0.79 and
      results 0.78 weigh to 0.72, 0.948 and 0.858, so the ids come out as
      2, 3, 1. */
  lemma RerankExample()
    ensures Ids(Rerank(ExampleHits, 3)) == [2, 3, 1]
  {
    ExampleWeights();
    ExampleSorted();
    IdsThree(ExampleWeighted[1], ExampleWeighted[2], ExampleWeighted[0]);
  }

  /** The request sent to the vector index. */
  datatype SearchRequest = SearchRequest(
    collection: string,
    vector: seq<real>,
    limit: int,
    withPayload: bool,
    filterPaperIds: Option<seq<string>>,
    scoreThreshold: real)

  function SearchRequestFor(vector: seq<real>, topK: int, paperIds: Option<seq<string>>): (q: SearchRequest)
    ensures q.limit >= 1 && q.limit >= topK
    ensures q.filterPaperIds.Some? <==> paperIds.Some? && |paperIds.value| > 0
    ensures q.filterPaperIds.Some? ==> q.filterPaperIds == paperIds
  {
    SearchRequest("papers_chunks", vector, Max(topK, 1), true,
      if paperIds.Some? && |paperIds.value| > 0 then paperIds else None, 0.5)
  }

  /** Retrieval: embed the question (`embed`), search the index (`search`),
      then weight, sort and cut exactly as `Rerank` does. A failure of either
      service is passed on. */
  function RetrieveFromIndex(question: string, topK: int, paperIds: Option<seq<string>>,
                             embed: string -> Result<seq<real>>,
                             search: SearchRequest -> Result<seq<Hit>>): (r: Result<seq<Hit>>)
    ensures r.Success? <==> (embed(question).Success?
      && search(SearchRequestFor(embed(question).value, topK, paperIds)).Success?)
    ensures r.Success? ==>
      var q := SearchRequestFor(embed(question).value, topK, paperIds);
      q.collection == "papers_chunks" && q.scoreThreshold == 0.5 && q.limit == Max(topK, 1)
      && r.value == Rerank(search(q).value, topK)
  {
    var vector :- embed(question);
    var hits :- search(SearchRequestFor(vector, topK, paperIds));
    Success(Take(Sort(WeightAll(hits), Score), Max(topK, 1)))
  }

  /** The query route re-ranks what retrieval already re-ranked: each hit of
      the final list is a search hit weighted twice, that is with its score
      multiplied by the square of its section weight. */
  lemma DoubleWeighting(hits: seq<Hit>, topK: int)
    ensures forall k | 0 <= k < |Rerank(Rerank(hits, topK), topK)| ::
      exists j | 0 <= j < |hits| :: Rerank(Rerank(hits, topK), topK)[k] == Weighted(Weighted(hits[j]))
  {
    var once := Rerank(hits, topK);
    var twice := Rerank(once, topK);
    RerankImages(hits, topK);
    RerankImages(once, topK);
    ImageOfImage(hits, once, twice, Weighted);
    forall k | 0 <= k < |twice|
      ensures exists j | 0 <= j < |hits| :: twice[k] == Weighted(Weighted(hits[j]))
    {
      assert ImageOfTwice(twice[k], hits, Weighted);
    }
  }

  lemma RerankImages(items: seq<Hit>, topK: int)
    ensures forall k | 0 <= k < |Rerank(items, topK)| :: ImageOf(Rerank(items, topK)[k], items, Weighted)
  {
    RerankFromInputs(items, topK);
  }

  /** `x` is `f` of some element of `s`. */
  ghost predicate ImageOf<T>(x: T, s: seq<T>, f: T -> T) {
    exists j | 0 <= j < |s| :: x == f(s[j])
  }

  /** `x` is `f` applied twice to some element of `s`. */
  ghost predicate ImageOfTwice<T>(x: T, s: seq<T>, f: T -> T) {
    exists j | 0 <= j < |s| :: x == f(f(s[j]))
  }

  /** Each element of `twice` is `f` of an element of `once`, each of which
      is `f` of an element of `s`: so each element of `twice` is `f` applied
      twice to an element of `s`. */
  lemma ImageOfImage<T>(s: seq<T>, once: seq<T>, twice: seq<T>, f: T -> T)
    requires forall k | 0 <= k < |once| :: ImageOf(once[k], s, f)
    requires forall k | 0 <= k < |twice| :: ImageOf(twice[k], once, f)
    ensures forall k | 0 <= k < |twice| :: ImageOfTwice(twice[k], s, f)
  {
    forall k | 0 <= k < |twice|
      ensures ImageOfTwice(twice[k], s, f)
    {
      assert ImageOf(twice[k], once, f);
      var i :| 0 <= i < |once| && twice[k] == f(once[i]);
      assert ImageOf(once[i], s, f);
      var j :| 0 <= j < |s| && once[i] == f(s[j]);
      assert twice[k] == f(f(s[j]));
    }
  }

  const ReorderHits: seq<Hit> := [
    Hit(1, 1.0, Payload("p", None, Some("abstract"), None, None, None, None, None)),
    Hit(2, 0.85, Payload("p", None, None, None, None, None, None, None))]

  lemma WeightAllTwo(a: Hit, b: Hit)
    ensures WeightAll([a, b]) == [Weighted(a), Weighted(b)]
  {
  }

  lemma ReorderPair(a: Hit, b: Hit)
    requires SectionWeight(a.payload.section) == 0.9 && SectionWeight(b.payload.section) == 1.0
    requires a.score == 1.0 && b.score == 0.85
    ensures Rerank([a, b], 2) == [a.(score := 0.9), b]
    ensures Rerank([a.(score := 0.9), b], 2) == [b, a.(score := 0.81)]
  {
    var a1, a2 := a.(score := 0.9), a.(score := 0.81);
    assert Weighted(a) == a1;
    assert Weighted(b) == b;
    assert Weighted(a1) == a2 by {
      assert a1.payload == a.payload;
    }
    WeightAllTwo(a, b);
    WeightAllTwo(a1, b);
    SortTwo(a1, b);
    SortTwo(a2, b);
  }

  lemma IdsTwo(a: Hit, b: Hit)
    ensures Ids([a, b]) == [a.id, b.id]
  {
  }

  /** Weighting twice can reorder hits that weighting once would not: an
      abstract hit at 1.0 beats an unlabelled hit at 0.85 after one pass
      (0.9 against 0.85) but loses after two (0.81 against 0.85). */
  lemma DoubleWeightingReorders()
    ensures Ids(Rerank(ReorderHits, 2)) == [1, 2]
    ensures Ids(Rerank(Rerank(ReorderHits, 2), 2)) == [2, 1]
  {
    var a, b := ReorderHits[0], ReorderHits[1];
    SectionWeightTable();
    ReorderPair(a, b);
    assert ReorderHits == [a, b];
    IdsTwo(a.(score := 0.9), b);
    IdsTwo(b, a.(score := 0.81));
  }
}
