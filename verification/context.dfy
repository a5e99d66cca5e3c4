/** The context assembler: joins retrieved hits with their chunk text,
    packs them into a budget of UTF-16 code units, and derives de-duplicated
    citations and the list of source titles (`buildContext` in the older API
    revision). */
module Context {
  import opened Wrappers
  import opened Strings
  import opened Sorting
  import opened Seqs
  import opened Records
  import opened PaperGroups
  import opened KeyedDedup

  const DefaultMaxChars := 8000

  datatype Source = Source(
    paperId: string,
    paperTitle: Option<string>,
    section: Option<string>,
    page: Option<int>,
    chunkIndex: Option<int>)

  datatype Entry = Entry(text: string, source: Source)

  datatype Citation = Citation(
    paperTitle: Option<string>,
    section: Option<string>,
    page: Option<int>,
    relevance: real)

  datatype Built = Built(items: seq<Entry>, citations: seq<Citation>, sourcesUsed: seq<string>)

  /** A hit together with the text it resolved to. */
  datatype Resolved = Resolved(hit: Hit, text: string)

  // ---------------------------------------------------------------------
  // Text resolution through the (paper, order) join

  /** The defined `chunk_index` values among the hits of paper `p`. */
  function Orders(rs: seq<Hit>, p: string): set<int> {
    set i | 0 <= i < |rs| && rs[i].payload.paperId == p && rs[i].payload.chunkIndex.Some?
      :: rs[i].payload.chunkIndex.value
  }

  /** The chunks the store returns for `{paper_id: p, order: {$in: orders}}`,
      in store order. */
  function Fetched(chunks: seq<Chunk>, p: string, orders: set<int>): (r: seq<Chunk>)
    ensures forall c | c in r :: c in chunks && c.paperId == p && c.order in orders
    ensures forall c | c in chunks && c.paperId == p && c.order in orders :: c in r
  {
    if |chunks| == 0 then []
    else
      var rest := Fetched(chunks[1..], p, orders);
      assert forall c | c in chunks :: c == chunks[0] || c in chunks[1..];
      if chunks[0].paperId == p && chunks[0].order in orders then [chunks[0]] + rest else rest
  }

  /** `orderToText.get(key)` after setting every fetched chunk in turn: the
      text of the last chunk with that order. */
  function LastText(cs: seq<Chunk>, key: int): (r: Option<string>)
    ensures r.None? <==> forall c | c in cs :: c.order != key
    ensures r.Some? ==> exists c | c in cs :: c.order == key && c.text == r.value
  {
    if |cs| == 0 then None
    else if cs[|cs| - 1].order == key then Some(cs[|cs| - 1].text)
    else
      assert forall c | c in cs :: c == cs[|cs| - 1] || c in cs[..|cs| - 1];
      LastText(cs[..|cs| - 1], key)
  }

  /** `(chunk_index as number) || -1`: an absent index and index 0 both
      become -1. */
  function LookupKey(ci: Option<int>): int {
    if ci.None? || ci.value == 0 then -1 else ci.value
  }

  /** The text an entry of hit `h` gets: the looked-up chunk text, or `''`. */
  function ResolveText(chunks: seq<Chunk>, rs: seq<Hit>, h: Hit): string {
    var p := h.payload.paperId;
    match LastText(Fetched(chunks, p, Orders(rs, p)), LookupKey(h.payload.chunkIndex))
    case None => ""
    case Some(t) => t
  }

  /** A non-empty text is the text of a stored chunk of the same paper whose
      order is the hit's lookup key. */
  lemma ResolveFromStore(chunks: seq<Chunk>, rs: seq<Hit>, h: Hit)
    ensures ResolveText(chunks, rs, h) != "" ==>
      exists c | c in chunks :: c.paperId == h.payload.paperId
        && c.order == LookupKey(h.payload.chunkIndex) && c.text == ResolveText(chunks, rs, h)
  {
  }

  /** A hit with a non-zero `chunk_index` finds a chunk whenever the store
      holds one of its paper with that order. */
  lemma ResolveFindsChunk(chunks: seq<Chunk>, rs: seq<Hit>, i: nat, c: Chunk)
    requires i < |rs| && c in chunks
    requires rs[i].payload.chunkIndex == Some(c.order) && c.order != 0
    requires c.paperId == rs[i].payload.paperId
    ensures exists d | d in chunks :: d.paperId == c.paperId && d.order == c.order
                                   && d.text == ResolveText(chunks, rs, rs[i])
  {
    var p := c.paperId;
    assert c.order in Orders(rs, p);
    var f := Fetched(chunks, p, Orders(rs, p));
    assert c in f;
  }

  /** Index 0 is looked up as -1, like an absent index: when no stored chunk
      has a negative order, both resolve to the empty text. */
  lemma ResolveZeroIsEmpty(chunks: seq<Chunk>, rs: seq<Hit>, h: Hit)
    requires forall c | c in chunks :: c.order >= 0
    requires h.payload.chunkIndex.None? || h.payload.chunkIndex == Some(0)
    ensures ResolveText(chunks, rs, h) == ""
  {
  }

  // ---------------------------------------------------------------------
  // Budget packing

  /** The summed `text.length` of the entries, in UTF-16 code units. */
  function TotalLen(rs: seq<Resolved>): nat {
    if |rs| == 0 then 0 else Utf16Length(rs[0].text) + TotalLen(rs[1..])
  }

  /** Visits the entries in order with `total` code units already used;
      an entry that would push the total past `maxChars` is skipped whole and
      the next one is tried. */
  function Pack(rs: seq<Resolved>, maxChars: int, total: int): (r: seq<Resolved>)
    ensures IsSubseq(r, rs)
    ensures total <= maxChars ==> total + TotalLen(r) <= maxChars
    ensures total > maxChars ==> r == []
  {
    if |rs| == 0 then []
    else if total + Utf16Length(rs[0].text) > maxChars then Pack(rs[1..], maxChars, total)
    else [rs[0]] + Pack(rs[1..], maxChars, total + Utf16Length(rs[0].text))
  }

  /** Nothing that still fits is left out: an entry is skipped only if it
      would not fit even on top of everything that was packed. */
  lemma {:induction false} PackMaximal(rs: seq<Resolved>, maxChars: int, total: int)
    ensures forall k | 0 <= k < |rs| && total + TotalLen(Pack(rs, maxChars, total)) + Utf16Length(rs[k].text) <= maxChars ::
      rs[k] in Pack(rs, maxChars, total)
  {
    if |rs| > 0 {
      var r := Pack(rs, maxChars, total);
      if total + Utf16Length(rs[0].text) > maxChars {
        PackMaximal(rs[1..], maxChars, total);
        forall k | 0 < k < |rs| && total + TotalLen(r) + Utf16Length(rs[k].text) <= maxChars
          ensures rs[k] in r
        {
          assert rs[k] == rs[1..][k - 1];
        }
      } else {
        var t := total + Utf16Length(rs[0].text);
        PackMaximal(rs[1..], maxChars, t);
        assert r == [rs[0]] + Pack(rs[1..], maxChars, t);
        assert TotalLen(r) == Utf16Length(rs[0].text) + TotalLen(Pack(rs[1..], maxChars, t)) by {
          assert r[1..] == Pack(rs[1..], maxChars, t);
        }
        forall k | 0 < k < |rs| && total + TotalLen(r) + Utf16Length(rs[k].text) <= maxChars
          ensures rs[k] in r
        {
          assert rs[k] == rs[1..][k - 1];
        }
      }
    }
  }

  /** The list of packed entries is empty exactly when every entry alone overflows. */
  lemma PackEmptyIff(rs: seq<Resolved>, maxChars: int)
    ensures Pack(rs, maxChars, 0) == [] <==> forall k | 0 <= k < |rs| :: Utf16Length(rs[k].text) > maxChars
  {
    PackMaximal(rs, maxChars, 0);
    var r := Pack(rs, maxChars, 0);
    if r != [] {
      SubseqMember(r, rs);
      assert r[0] in r;
      var k :| 0 <= k < |rs| && rs[k] == r[0];
      assert Utf16Length(rs[k].text) <= TotalLen(r);
    }
  }

  // ---------------------------------------------------------------------
  // Citations

  function CitationOf(x: Resolved): (c: Citation)
    ensures c.paperTitle == x.hit.payload.paperTitle && c.section == x.hit.payload.section
    ensures c.page == x.hit.payload.page && c.relevance == x.hit.score
  {
    Citation(x.hit.payload.paperTitle, x.hit.payload.section, x.hit.payload.page, x.hit.score)
  }

  function Relevance(c: Citation): real {
    c.relevance
  }

  /** `${page || ''}` */
  function PageText(page: Option<int>): string {
    if page.None? || page.value == 0 then "" else IntToString(page.value)
  }

  /** The de-duplication key `${title || ''}|${section || ''}|${page || ''}`. */
  function CitKey(c: Citation): string {
    OrEmpty(c.paperTitle) + "|" + OrEmpty(c.section) + "|" + PageText(c.page)
  }

  /** The de-duplicated citations: one per key, the best-scoring one and
      the first of those on a tie, in the order keys first appear. */
  function DedupCitations(cs: seq<Citation>): seq<Citation> {
    DedupBy(cs, CitKey, Relevance)
  }

  /** The citation list: de-duplicated, sorted by relevance, at most five. */
  function FinalCitations(cs: seq<Citation>): (r: seq<Citation>)
    ensures |r| <= 5
  {
    Take(Sort(DedupCitations(cs), Relevance), 5)
  }

  /** The final citations are sorted by score and unique by key. */
  lemma FinalCitationsSortedUnique(cs: seq<Citation>)
    ensures SortedDesc(FinalCitations(cs), Relevance)
    ensures UniqueKeys(FinalCitations(cs), CitKey)
  {
    var u := DedupCitations(cs);
    var s := Sort(u, Relevance);
    var r := FinalCitations(cs);
    DedupBySpec(cs, CitKey, Relevance);
    SortSorted(u, Relevance);
    PermutationKeepsUniqueKeys(u, s, CitKey);
    forall i, j | 0 <= i < j < |r|
      ensures CitKey(r[i]) != CitKey(r[j])
    {
      assert r[i] == s[i] && r[j] == s[j];
    }
  }

  /** Each final citation is a citation of the input that is the best of
      its key (the first of the best on a tie), and every input citation's
      key has a de-duplicated citation at least as good. */
  lemma FinalCitationsBest(cs: seq<Citation>)
    ensures forall c | c in FinalCitations(cs) :: c in cs && IsFirstBest(c, cs, CitKey, Relevance)
    ensures forall c | c in cs :: HasBetter(DedupCitations(cs), c, CitKey, Relevance)
  {
    var u := DedupCitations(cs);
    DedupBySpec(cs, CitKey, Relevance);
    TakeSortedMembers(u, 5, Relevance);
    KeptAreFirstBest(cs, u, FinalCitations(cs), CitKey, Relevance);
    DominatesMembers(u, cs, CitKey, Relevance);
  }

  /** The cap at five drops no citation that scores above a kept one. */
  lemma FinalCitationsDropped(cs: seq<Citation>)
    ensures forall c, d | c in DedupCitations(cs) && d in FinalCitations(cs) && c !in FinalCitations(cs) ::
      c.relevance <= d.relevance
  {
    var u := DedupCitations(cs);
    var s := Sort(u, Relevance);
    var r := FinalCitations(cs);
    SortSorted(u, Relevance);
    assert s == r + s[|r|..];
    forall c, d | c in u && d in r && c !in r
      ensures c.relevance <= d.relevance
    {
      assert c in multiset(s);
      var a :| 0 <= a < |s| && s[a] == c;
      var b :| 0 <= b < |r| && r[b] == d;
      assert a >= |r|;
      assert s[b] == d;
    }
  }

  // ---------------------------------------------------------------------
  // Sources and the whole assembly

  function TitlesOf(rs: seq<Resolved>): (r: seq<string>)
    ensures forall t | t in r :: t != "" && exists x | x in rs :: x.hit.payload.paperTitle == Some(t)
    ensures forall x | x in rs && Truthy(x.hit.payload.paperTitle) :: x.hit.payload.paperTitle.value in r
  {
    if |rs| == 0 then []
    else
      assert forall x | x in rs :: x == rs[0] || x in rs[1..];
      (if Truthy(rs[0].hit.payload.paperTitle) then [rs[0].hit.payload.paperTitle.value] else [])
      + TitlesOf(rs[1..])
  }

  function EntryOf(x: Resolved): Entry {
    var p := x.hit.payload;
    Entry(x.text, Source(p.paperId, p.paperTitle, p.section, p.page, p.chunkIndex))
  }

  /** The hits in visiting order, each with the text `text` gives it. */
  function ResolveWith(rs: seq<Hit>, text: Hit -> string): (r: seq<Resolved>)
    ensures |r| == |Grouped(rs)|
    ensures forall k | 0 <= k < |r| :: r[k] == Resolved(Grouped(rs)[k].hit, text(Grouped(rs)[k].hit))
  {
    var g := Grouped(rs);
    seq(|g|, k requires 0 <= k < |g| => Resolved(g[k].hit, text(g[k].hit)))
  }

  function CitationsOf(packed: seq<Resolved>): (r: seq<Citation>)
    ensures |r| == |packed|
    ensures forall k | 0 <= k < |packed| :: r[k] == CitationOf(packed[k])
  {
    seq(|packed|, k requires 0 <= k < |packed| => CitationOf(packed[k]))
  }

  function EntriesOf(packed: seq<Resolved>): (r: seq<Entry>)
    ensures |r| == |packed|
    ensures forall k | 0 <= k < |packed| :: r[k] == EntryOf(packed[k])
  {
    seq(|packed|, k requires 0 <= k < |packed| => EntryOf(packed[k]))
  }

  /** The assembly given the text of each hit. */
  function Assemble(rs: seq<Hit>, text: Hit -> string, maxChars: int): Built {
    var packed := Pack(ResolveWith(rs, text), maxChars, 0);
    Built(EntriesOf(packed), FinalCitations(CitationsOf(packed)), Dedupe(TitlesOf(packed)))
  }

  /** `buildContext(retrieved, maxChars)` against the chunk store `chunks`. */
  function BuildContext(rs: seq<Hit>, chunks: seq<Chunk>, maxChars: int): Built {
    Assemble(rs, h => ResolveText(chunks, rs, h), maxChars)
  }

  /** Every input hit is visited. */
  lemma ResolveWithHasEveryHit(rs: seq<Hit>, text: Hit -> string, i: nat)
    requires i < |rs|
    ensures exists k | 0 <= k < |ResolveWith(rs, text)| ::
      ResolveWith(rs, text)[k] == Resolved(rs[i], text(rs[i]))
  {
    var g := Grouped(rs);
    GroupedMembers(rs);
    assert Candidate(i, rs[i]) == Indexed(rs)[i];
    assert Candidate(i, rs[i]) in g;
    var k :| 0 <= k < |g| && g[k] == Candidate(i, rs[i]);
    assert ResolveWith(rs, text)[k] == Resolved(rs[i], text(rs[i]));
  }

  /** Only input hits are visited. */
  lemma ResolveWithOnlyHits(rs: seq<Hit>, text: Hit -> string, k: nat)
    requires k < |ResolveWith(rs, text)|
    ensures exists i | 0 <= i < |rs| :: ResolveWith(rs, text)[k] == Resolved(rs[i], text(rs[i]))
  {
    var g := Grouped(rs);
    GroupedMembers(rs);
    assert g[k] in g;
    var i :| 0 <= i < |rs| && Indexed(rs)[i] == g[k];
    assert ResolveWith(rs, text)[k] == Resolved(rs[i], text(rs[i]));
  }

  /** The included text never exceeds the budget, and an entry is left out
      only if it does not fit on top of everything included. */
  lemma AssembleBudget(rs: seq<Hit>, text: Hit -> string, maxChars: int)
    ensures var packed := Pack(ResolveWith(rs, text), maxChars, 0);
      (packed == [] || TotalLen(packed) <= maxChars)
      && IsSubseq(packed, ResolveWith(rs, text))
      && forall x | x in ResolveWith(rs, text) && TotalLen(packed) + Utf16Length(x.text) <= maxChars :: x in packed
  {
    var all := ResolveWith(rs, text);
    PackMaximal(all, maxChars, 0);
    forall x | x in all && TotalLen(Pack(all, maxChars, 0)) + Utf16Length(x.text) <= maxChars
      ensures x in Pack(all, maxChars, 0)
    {
      var k :| 0 <= k < |all| && all[k] == x;
    }
  }

  /** An entry whose text resolved to `''` (an absent or zero
      `chunk_index`, or a missing chunk) is still included whenever the
      budget is not negative. */
  lemma EmptyTextIncluded(rs: seq<Hit>, text: Hit -> string, maxChars: int, x: Resolved)
    requires maxChars >= 0 && x in ResolveWith(rs, text) && x.text == ""
    ensures x in Pack(ResolveWith(rs, text), maxChars, 0)
  {
    AssembleBudget(rs, text, maxChars);
    PackEmptyIff(ResolveWith(rs, text), maxChars);
  }

  /** The item list is empty exactly when every hit's text alone is longer
      than the budget, which includes the case of no hits at all. */
  lemma AssembleEmptyIff(rs: seq<Hit>, text: Hit -> string, maxChars: int)
    ensures Assemble(rs, text, maxChars).items == []
        <==> forall i | 0 <= i < |rs| :: Utf16Length(text(rs[i])) > maxChars
  {
    var all := ResolveWith(rs, text);
    PackEmptyIff(all, maxChars);
    if forall i | 0 <= i < |rs| :: Utf16Length(text(rs[i])) > maxChars {
      forall k | 0 <= k < |all|
        ensures Utf16Length(all[k].text) > maxChars
      {
        ResolveWithOnlyHits(rs, text, k);
        var i :| 0 <= i < |rs| && all[k] == Resolved(rs[i], text(rs[i]));
      }
    } else {
      var i :| 0 <= i < |rs| && Utf16Length(text(rs[i])) <= maxChars;
      ResolveWithHasEveryHit(rs, text, i);
      var k :| 0 <= k < |all| && all[k] == Resolved(rs[i], text(rs[i]));
    }
  }

  /** Every item is an input hit with its full resolved text. */
  lemma AssembleItems(rs: seq<Hit>, text: Hit -> string, maxChars: int)
    ensures var b := Assemble(rs, text, maxChars);
      var packed := Pack(ResolveWith(rs, text), maxChars, 0);
      forall k | 0 <= k < |b.items| :: b.items[k] == EntryOf(packed[k])
        && exists i | 0 <= i < |rs| :: packed[k] == Resolved(rs[i], text(rs[i]))
  {
    var all := ResolveWith(rs, text);
    var packed := Pack(all, maxChars, 0);
    SubseqMember(packed, all);
    forall k | 0 <= k < |packed|
      ensures exists i | 0 <= i < |rs| :: packed[k] == Resolved(rs[i], text(rs[i]))
    {
      assert packed[k] in all;
      var j :| 0 <= j < |all| && all[j] == packed[k];
      ResolveWithOnlyHits(rs, text, j);
    }
  }

  /** Citations are at most five, unique by key, sorted by score, and each
      is the citation of an included entry, carrying its hit's score. */
  lemma AssembleCitations(rs: seq<Hit>, text: Hit -> string, maxChars: int)
    ensures var b := Assemble(rs, text, maxChars);
      var packed := Pack(ResolveWith(rs, text), maxChars, 0);
      (forall c | c in b.citations :: exists x | x in packed :: c == CitationOf(x))
      && |b.citations| <= 5 && UniqueKeys(b.citations, CitKey) && SortedDesc(b.citations, Relevance)
  {
    CitationsFrom(Pack(ResolveWith(rs, text), maxChars, 0));
  }

  /** The final citations of included entries. */
  lemma CitationsFrom(packed: seq<Resolved>)
    ensures forall c | c in FinalCitations(CitationsOf(packed)) :: exists x | x in packed :: c == CitationOf(x)
    ensures UniqueKeys(FinalCitations(CitationsOf(packed)), CitKey)
    ensures SortedDesc(FinalCitations(CitationsOf(packed)), Relevance)
  {
    var cits := CitationsOf(packed);
    FinalCitationsSortedUnique(cits);
    FinalCitationsBest(cits);
    forall c | c in FinalCitations(cits)
      ensures exists x | x in packed :: c == CitationOf(x)
    {
      var k :| 0 <= k < |cits| && cits[k] == c;
      assert packed[k] in packed;
    }
  }

  /** The sources are the distinct non-empty titles of included entries, in
      the order they were first seen. */
  lemma AssembleSources(rs: seq<Hit>, text: Hit -> string, maxChars: int)
    ensures var b := Assemble(rs, text, maxChars);
      var packed := Pack(ResolveWith(rs, text), maxChars, 0);
      Distinct(b.sourcesUsed)
      && (forall t | t in b.sourcesUsed :: t != "" && exists x | x in packed :: x.hit.payload.paperTitle == Some(t))
      && (forall x | x in packed && Truthy(x.hit.payload.paperTitle) :: x.hit.payload.paperTitle.value in b.sourcesUsed)
      && (forall a, c | 0 <= a < c < |b.sourcesUsed| ::
            FirstIndex(TitlesOf(packed), b.sourcesUsed[a]) < FirstIndex(TitlesOf(packed), b.sourcesUsed[c]))
  {
    DedupeSpec(TitlesOf(Pack(ResolveWith(rs, text), maxChars, 0)));
  }

  /** The budget of the context builder itself. */
  lemma ContextBudget(rs: seq<Hit>, chunks: seq<Chunk>, maxChars: int)
    ensures var b := BuildContext(rs, chunks, maxChars);
      b.items == [] || TotalLen(Pack(ResolveWith(rs, h => ResolveText(chunks, rs, h)), maxChars, 0)) <= maxChars
  {
    AssembleBudget(rs, h => ResolveText(chunks, rs, h), maxChars);
  }

  lemma ContextEmptyIff(rs: seq<Hit>, chunks: seq<Chunk>, maxChars: int)
    ensures BuildContext(rs, chunks, maxChars).items == []
        <==> forall i | 0 <= i < |rs| :: Utf16Length(ResolveText(chunks, rs, rs[i])) > maxChars
  {
    AssembleEmptyIff(rs, h => ResolveText(chunks, rs, h), maxChars);
  }
}
