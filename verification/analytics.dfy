/** Question normalisation and the popularity aggregation over the stored
    query history. */
module Analytics {
  import opened Wrappers
  import opened Strings
  import opened Sorting
  import opened Seqs
  import opened KeyedDedup
  import opened Validation

  // ---------------------------------------------------------------------
  // Normalisation

  /** `normalizeQuestion`: trim, lower-case, then turn every whitespace run
      into one space. A missing question normalises to the empty string. */
  function NormalizeQuestion(input: Option<string>): string {
    Collapse(Lower(JsTrim(input.GetOr(""))), IsJsSpace)
  }

  /** Normal form: no whitespace at either end, only single plain spaces
      inside, and no upper-case letter. */
  predicate IsNormal(s: string) {
    NoEdgeSpace(s, IsJsSpace) && NoDoubleSpace(s, IsJsSpace)
    && OnlyPlainSpaces(s, IsJsSpace) && NoUpper(s)
  }

  lemma NormalizeShape(input: Option<string>)
    ensures IsNormal(NormalizeQuestion(input))
    ensures input.None? ==> NormalizeQuestion(input) == ""
  {
    var t := JsTrim(input.GetOr(""));
    var l := Lower(t);
    var r := Collapse(l, IsJsSpace);
    LowerKeepsSpaces(t);
    CollapseNoEdge(l, IsJsSpace);
    CollapseShape(l, IsJsSpace);
    LowerNoUpper(t);
    forall i | 0 <= i < |r|
      ensures !IsUpper(r[i])
    {
      if r[i] != ' ' {
        assert r[i] in l;
      }
    }
  }

  /** A string already in normal form is its own normalisation. */
  lemma NormalFixed(s: string)
    requires IsNormal(s)
    ensures NormalizeQuestion(Some(s)) == s
  {
    LowerNoUpper(s);
    CollapseFixed(s, IsJsSpace);
  }

  /** Normalising twice is normalising once. */
  lemma NormalizeIdempotent(input: Option<string>)
    ensures NormalizeQuestion(Some(NormalizeQuestion(input))) == NormalizeQuestion(input)
  {
    NormalizeShape(input);
    NormalFixed(NormalizeQuestion(input));
  }

  // ---------------------------------------------------------------------
  // Counting groups

  /** A group key with its number of occurrences. */
  datatype Count = Count(key: string, count: nat)

  function CountKey(c: Count): string {
    c.key
  }

  function CountValue(c: Count): real {
    c.count as real
  }

  /** `$group` with `$sum: 1`: one row per distinct key, in order of first
      occurrence. */
  function Counted(keys: seq<string>): (r: seq<Count>)
    ensures |r| == |Dedupe(keys)|
    ensures forall i | 0 <= i < |r| :: r[i] == Count(Dedupe(keys)[i], multiset(keys)[Dedupe(keys)[i]])
  {
    var d := Dedupe(keys);
    seq(|d|, i requires 0 <= i < |d| => Count(d[i], multiset(keys)[d[i]]))
  }

  /** `$sort: { count: -1 }` then `$limit`. */
  function TopCounts(keys: seq<string>, limit: nat): (r: seq<Count>)
    ensures |r| == Min(|Dedupe(keys)|, limit)
  {
    Take(Sort(Counted(keys), CountValue), limit)
  }

  lemma TopCountsSorted(keys: seq<string>, limit: nat)
    ensures SortedDesc(TopCounts(keys, limit), CountValue)
  {
    var all := Sort(Counted(keys), CountValue);
    SortSorted(Counted(keys), CountValue);
    assert TopCounts(keys, limit) == all[..|TopCounts(keys, limit)|];
  }

  /** Every row is a key of the input with its exact number of occurrences,
      and no key has two rows. */
  lemma TopCountsExact(keys: seq<string>, limit: nat)
    ensures forall c | c in TopCounts(keys, limit) :: c.key in keys && c.count == multiset(keys)[c.key]
    ensures UniqueKeys(TopCounts(keys, limit), CountKey)
  {
    var cs := Counted(keys);
    var all := Sort(cs, CountValue);
    var r := TopCounts(keys, limit);
    assert r == all[..|r|];
    DedupeSpec(keys);
    forall c | c in r
      ensures c.key in keys && c.count == multiset(keys)[c.key]
    {
      assert c in multiset(all);
      assert c in cs;
    }
    assert UniqueKeys(cs, CountKey);
    PermutationKeepsUniqueKeys(cs, all, CountKey);
  }

  /** A key without a row occurs no more often than any key with one. */
  lemma TopCountsDropped(keys: seq<string>, limit: nat)
    ensures forall k, c | k in keys && c in TopCounts(keys, limit)
              && (forall c' | c' in TopCounts(keys, limit) :: c'.key != k)
              :: multiset(keys)[k] <= c.count
  {
    var cs := Counted(keys);
    var all := Sort(cs, CountValue);
    var r := TopCounts(keys, limit);
    assert r == all[..|r|];
    SortPrefixDropped(cs, |r|, CountValue);
    DedupeSpec(keys);
    forall k, c | k in keys && c in r && (forall c' | c' in r :: c'.key != k)
      ensures multiset(keys)[k] <= c.count
    {
      var i :| 0 <= i < |Dedupe(keys)| && Dedupe(keys)[i] == k;
      var g := cs[i];
      assert g.key == k;
      assert g !in r;
      assert g in multiset(cs) - multiset(r);
      assert CountValue(g) <= CountValue(c);
    }
  }

  // ---------------------------------------------------------------------
  // The two aggregations

  /** The fields of a stored query record the aggregation reads. */
  datatype QueryRecord = QueryRecord(question: string, normalizedQuestion: string, topSourcePapers: seq<string>)

  datatype TopQuestion = TopQuestion(question: string, count: nat)

  datatype TopPaper = TopPaper(paperId: string, paperTitle: Option<string>, count: nat)

  function NormalizedKeys(records: seq<QueryRecord>): (r: seq<string>)
    ensures |r| == |records|
    ensures forall i | 0 <= i < |records| :: r[i] == records[i].normalizedQuestion
  {
    seq(|records|, i requires 0 <= i < |records| => records[i].normalizedQuestion)
  }

  /** `$first: '$question'` of a group: the question of its first record. */
  function FirstQuestion(records: seq<QueryRecord>, key: string): string {
    var i := FirstIndex(NormalizedKeys(records), key);
    if i < |records| then records[i].question else ""
  }

  /** `top_questions`: grouped by normalised question, most frequent first,
      at most `limit` rows. */
  function TopQuestions(records: seq<QueryRecord>, limit: nat): (r: seq<TopQuestion>)
    ensures |r| == |TopCounts(NormalizedKeys(records), limit)|
  {
    var t := TopCounts(NormalizedKeys(records), limit);
    seq(|t|, i requires 0 <= i < |t| => TopQuestion(FirstQuestion(records, t[i].key), t[i].count))
  }

  /** Record `j` is the first of its normalised question. */
  predicate FirstOfGroup(records: seq<QueryRecord>, j: int)
    requires 0 <= j < |records|
  {
    forall i | 0 <= i < j :: records[i].normalizedQuestion != records[j].normalizedQuestion
  }

  /** How many records share the normalised question `key`. */
  function GroupSize(records: seq<QueryRecord>, key: string): nat {
    multiset(NormalizedKeys(records))[key]
  }

  /** `row` shows the question of the first record of some group and the
      size of that group. */
  predicate GroupRow(records: seq<QueryRecord>, row: TopQuestion) {
    exists j | 0 <= j < |records| :: FirstOfGroup(records, j)
      && row == TopQuestion(records[j].question, GroupSize(records, records[j].normalizedQuestion))
  }

  /** Each row shows the question of the first record of a group and the
      size of that group; sizes never increase down the list; there are at
      most `limit` rows and fewer only when there are fewer groups. */
  lemma TopQuestionsSpec(records: seq<QueryRecord>, limit: nat)
    ensures |TopQuestions(records, limit)| == Min(|Dedupe(NormalizedKeys(records))|, limit)
    ensures forall a, b | 0 <= a < b < |TopQuestions(records, limit)| ::
      TopQuestions(records, limit)[a].count >= TopQuestions(records, limit)[b].count
    ensures forall k | 0 <= k < |TopQuestions(records, limit)| ::
      GroupRow(records, TopQuestions(records, limit)[k])
  {
    var keys := NormalizedKeys(records);
    var t := TopCounts(keys, limit);
    var r := TopQuestions(records, limit);
    TopCountsSorted(keys, limit);
    TopCountsExact(keys, limit);
    forall a, b | 0 <= a < b < |r|
      ensures r[a].count >= r[b].count
    {
      assert CountValue(t[a]) >= CountValue(t[b]);
    }
    forall k | 0 <= k < |r|
      ensures GroupRow(records, r[k])
    {
      assert t[k] in t;
      var j := FirstIndex(keys, t[k].key);
      assert FirstOfGroup(records, j);
      assert r[k] == TopQuestion(records[j].question, GroupSize(records, records[j].normalizedQuestion));
    }
  }

  /** Each record's top-source paper ids, all records together (`$unwind`,
      which skips records without sources). */
  function SourcePapers(records: seq<QueryRecord>): seq<string> {
    if |records| == 0 then []
    else SourcePapers(records[..|records| - 1]) + records[|records| - 1].topSourcePapers
  }

  /** `top_papers`: source references counted per paper id, most frequent
      first, at most `limit` rows, with the title of the paper the id names.
      `$toObjectId` fails the whole aggregation on a kept id that is not a
      well-formed id. */
  function TopPapers(records: seq<QueryRecord>, limit: nat, titleOf: string -> Option<string>)
    : (r: Result<seq<TopPaper>>)
    ensures r.Success? ==> |r.value| == |TopCounts(SourcePapers(records), limit)|
  {
    var t := TopCounts(SourcePapers(records), limit);
    if exists i | 0 <= i < |t| :: !IsObjectId(t[i].key) then Failure("Failed to parse objectId")
    else Success(seq(|t|, i requires 0 <= i < |t| => TopPaper(t[i].key, titleOf(t[i].key), t[i].count)))
  }

  /** The paper aggregation fails exactly when a kept id is malformed;
      otherwise every row is a distinct paper with the number of times it
      was a top source, and rows never increase in count. */
  lemma TopPapersSpec(records: seq<QueryRecord>, limit: nat, titleOf: string -> Option<string>)
    ensures var t := TopCounts(SourcePapers(records), limit);
      TopPapers(records, limit, titleOf).Failure? <==> exists c | c in t :: !IsObjectId(c.key)
    ensures var r := TopPapers(records, limit, titleOf);
      r.Success? ==>
        (forall k | 0 <= k < |r.value| ::
          r.value[k].paperId in SourcePapers(records)
          && r.value[k].count == multiset(SourcePapers(records))[r.value[k].paperId]
          && r.value[k].paperTitle == titleOf(r.value[k].paperId))
        && (forall a, b | 0 <= a < b < |r.value| :: r.value[a].paperId != r.value[b].paperId)
        && (forall a, b | 0 <= a < b < |r.value| :: r.value[a].count >= r.value[b].count)
  {
    var keys := SourcePapers(records);
    var t := TopCounts(keys, limit);
    TopCountsSorted(keys, limit);
    TopCountsExact(keys, limit);
    var r := TopPapers(records, limit, titleOf);
    if r.Success? {
      forall k | 0 <= k < |r.value|
        ensures r.value[k].paperId in keys
        ensures r.value[k].count == multiset(keys)[r.value[k].paperId]
      {
        assert t[k] in t;
      }
      forall a, b | 0 <= a < b < |r.value|
        ensures r.value[a].count >= r.value[b].count
      {
        assert CountValue(t[a]) >= CountValue(t[b]);
      }
    }
  }

  /** A paper without a row was a top source no more often than any paper
      with one. */
  lemma TopPapersDropped(records: seq<QueryRecord>, limit: nat, titleOf: string -> Option<string>)
    ensures var r := TopPapers(records, limit, titleOf);
      r.Success? ==>
        forall p, k | p in SourcePapers(records) && 0 <= k < |r.value|
          && (forall k' | 0 <= k' < |r.value| :: r.value[k'].paperId != p)
          :: multiset(SourcePapers(records))[p] <= r.value[k].count
  {
    var keys := SourcePapers(records);
    var t := TopCounts(keys, limit);
    var r := TopPapers(records, limit, titleOf);
    if r.Success? {
      TopCountsDropped(keys, limit);
      forall p, k | p in keys && 0 <= k < |r.value|
        && (forall k' | 0 <= k' < |r.value| :: r.value[k'].paperId != p)
        ensures multiset(keys)[p] <= r.value[k].count
      {
        assert t[k] in t;
        forall c' | c' in t
          ensures c'.key != p
        {
          var k' :| 0 <= k' < |t| && t[k'] == c';
          assert r.value[k'].paperId == c'.key;
        }
      }
    }
  }
}
