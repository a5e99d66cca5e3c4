/** The embedder's `/extract` route: it reads a bounded number of pages of an
    uploaded PDF, cuts each page into chunks, labels every chunk with the
    section it belongs to, and groups consecutive chunks of one section into
    runs. The PDF library is a `Document` value, and heading detection is a
    parameter. */
module Extractor {
  import opened Wrappers
  import opened Strings
  import opened Records
  import TextChunker

  const MaxPages := 80
  const MaxTotalChars := 2000000
  const MaxChunks := 4000

  /** An opened PDF: the title found on its first page, its metadata, and
      the text of each page (`None` where reading the page failed). */
  datatype Document = Document(
    detectedTitle: Option<string>,
    metaTitle: Option<string>,
    author: Option<string>,
    creationDate: Option<string>,
    pages: seq<Option<string>>)

  datatype Meta = Meta(title: string, authors: string, year: string, filename: string, pages: nat)

  /** A chunk of the response. */
  datatype Labelled = Labelled(id: string, text: string, section: string, page: nat, order: nat)

  datatype Extracted = Extracted(meta: Meta, sections: seq<SectionRun>, chunks: seq<Labelled>)

  datatype HttpError = HttpError(status: int, detail: string)

  // ---------------------------------------------------------------------
  // Accepting the upload

  /** The file name ends with `.pdf`, in any case. */
  predicate IsPdfName(name: string) {
    EndsWith(Lower(name), ".pdf")
  }

  /** `a or b` for optional strings: the first present, non-empty one. */
  function Or(a: Option<string>, b: string): (r: string)
    ensures Truthy(a) ==> r == a.value
    ensures !Truthy(a) ==> r == b
  {
    if Truthy(a) then a.value else b
  }

  /** The title is the detected one, else the metadata title, else the file
      name; authors and year fall back to the empty string. */
  function MetaOf(doc: Document, filename: string, pages: nat): (m: Meta)
    ensures m.filename == filename && m.pages == pages
    ensures Truthy(doc.detectedTitle) ==> m.title == doc.detectedTitle.value
    ensures !Truthy(doc.detectedTitle) && Truthy(doc.metaTitle) ==> m.title == doc.metaTitle.value
    ensures !Truthy(doc.detectedTitle) && !Truthy(doc.metaTitle) ==> m.title == filename
  {
    Meta(Or(doc.detectedTitle, Or(doc.metaTitle, filename)), Or(doc.author, ""), Or(doc.creationDate, ""),
         filename, pages)
  }

  // ---------------------------------------------------------------------
  // Reading pages

  function PageText(p: Option<string>): string {
    if p.Some? then p.value else ""
  }

  /** The characters in all of `texts`. */
  function TotalChars(texts: seq<string>): nat {
    if |texts| == 0 then 0 else |texts[0]| + TotalChars(texts[1..])
  }

  /** The pages read from page `i` on with `total` characters already
      read: none once `MaxPages` pages were read; otherwise page `i`, and
      the following ones unless it took the count past `MaxTotalChars`. */
  function ReadFrom(pages: seq<Option<string>>, i: nat, total: nat): seq<string>
    decreases |pages| - i
  {
    if i >= |pages| || i >= MaxPages then []
    else if total + |PageText(pages[i])| > MaxTotalChars then [PageText(pages[i])]
    else [PageText(pages[i])] + ReadFrom(pages, i + 1, total + |PageText(pages[i])|)
  }

  /** The page texts the route reads from a document. */
  function PagesRead(pages: seq<Option<string>>): seq<string> {
    ReadFrom(pages, 0, 0)
  }

  /** The pages read from page `i` on are the next pages in order, no more
      than fit under `MaxPages`. */
  lemma {:induction false} ReadFromPages(pages: seq<Option<string>>, i: nat, total: nat)
    requires i <= |pages| && i <= MaxPages
    ensures var r := ReadFrom(pages, i, total);
      i + |r| <= |pages| && i + |r| <= MaxPages
      && forall k | 0 <= k < |r| :: r[k] == PageText(pages[i + k])
    decreases |pages| - i
  {
    if i < |pages| && i < MaxPages {
      var t := PageText(pages[i]);
      if total + |t| <= MaxTotalChars {
        var rest := ReadFrom(pages, i + 1, total + |t|);
        ReadFromPages(pages, i + 1, total + |t|);
        var r := [t] + rest;
        assert ReadFrom(pages, i, total) == r;
        forall k | 0 <= k < |r|
          ensures r[k] == PageText(pages[i + k])
        {
          if k > 0 {
            assert r[k] == rest[k - 1];
          }
        }
      } else {
        assert ReadFrom(pages, i, total) == [t];
      }
    }
  }

  /** The running count stays within `MaxTotalChars` up to the last page
      read. */
  lemma {:induction false} ReadFromWithin(pages: seq<Option<string>>, i: nat, total: nat)
    requires total <= MaxTotalChars
    ensures var r := ReadFrom(pages, i, total);
      |r| > 0 ==> total + TotalChars(r) - |r[|r| - 1]| <= MaxTotalChars
    decreases |pages| - i
  {
    if i < |pages| && i < MaxPages {
      var t := PageText(pages[i]);
      if total + |t| <= MaxTotalChars {
        var rest := ReadFrom(pages, i + 1, total + |t|);
        ReadFromWithin(pages, i + 1, total + |t|);
        var r := [t] + rest;
        assert r[1..] == rest;
        if |rest| > 0 {
          assert r[|r| - 1] == rest[|rest| - 1];
        }
      } else {
        assert [t][1..] == [];
      }
    }
  }

  /** Reading stops before the last page only at `MaxPages` or once the
      count went past `MaxTotalChars`. */
  lemma {:induction false} ReadFromStops(pages: seq<Option<string>>, i: nat, total: nat)
    requires i <= |pages| && i <= MaxPages
    ensures var r := ReadFrom(pages, i, total);
      i + |r| < |pages| ==> i + |r| == MaxPages || total + TotalChars(r) > MaxTotalChars
    decreases |pages| - i
  {
    if i < |pages| && i < MaxPages {
      var t := PageText(pages[i]);
      if total + |t| <= MaxTotalChars {
        var rest := ReadFrom(pages, i + 1, total + |t|);
        ReadFromStops(pages, i + 1, total + |t|);
        assert ([t] + rest)[1..] == rest;
      } else {
        assert [t][1..] == [];
      }
    }
  }

  /** A document reads as its first pages in order, a failed page as empty
      text, and no more than `MaxPages` of them. */
  lemma PagesReadOrder(pages: seq<Option<string>>)
    ensures var r := PagesRead(pages);
      |r| <= |pages| && |r| <= MaxPages && forall i | 0 <= i < |r| :: r[i] == PageText(pages[i])
  {
    ReadFromPages(pages, 0, 0);
  }

  /** Reading stops before the last page only after `MaxPages` pages or
      after the page that takes the running character count past
      `MaxTotalChars`; the pages before that one stay within it. */
  lemma PagesReadBudget(pages: seq<Option<string>>)
    ensures var r := PagesRead(pages);
      (|r| > 0 ==> TotalChars(r) - |r[|r| - 1]| <= MaxTotalChars)
      && (|r| < |pages| ==> |r| == MaxPages || TotalChars(r) > MaxTotalChars)
  {
    ReadFromWithin(pages, 0, 0);
    ReadFromStops(pages, 0, 0);
  }

  /** The page loop reads exactly the pages `PagesRead` describes. */
  method ReadPages(pages: seq<Option<string>>) returns (texts: seq<string>)
    ensures texts == PagesRead(pages)
  {
    texts := [];
    var total: nat := 0;
    var i := 0;
    while i < |pages| && i < MaxPages
      invariant 0 <= i <= |pages| && i <= MaxPages
      invariant texts + ReadFrom(pages, i, total) == PagesRead(pages)
    {
      var txt := PageText(pages[i]);
      if total + |txt| > MaxTotalChars {
        assert ReadFrom(pages, i, total) == [txt];
        return texts + [txt];
      }
      var rest := ReadFrom(pages, i + 1, total + |txt|);
      assert ReadFrom(pages, i, total) == [txt] + rest;
      assert (texts + [txt]) + rest == texts + ([txt] + rest);
      texts := texts + [txt];
      total := total + |txt|;
      i := i + 1;
    }
    assert ReadFrom(pages, i, total) == [];
    assert texts + [] == texts;
  }

  // ---------------------------------------------------------------------
  // Cutting pages into parts

  /** A chunk of page text and its 1-based page number. */
  datatype Part = Part(page: nat, text: string)

  predicate Blank(s: string) {
    PyStrip(s) == ""
  }

  /** The parts of `pages`, whose first page is number `first`: a blank page
      contributes nothing, any other its chunks in order. */
  function Parts(pages: seq<string>, first: nat): seq<Part>
  {
    if |pages| == 0 then []
    else
      var here := if Blank(pages[0]) then [] else PartsOfPage(first, PageChunks(pages[0]));
      here + Parts(pages[1..], first + 1)
  }

  /** `chunk_text(page_text)` with its default sizes. */
  function PageChunks(text: string): seq<string> {
    TextChunker.Chunks(text, TextChunker.DefaultMaxChars, TextChunker.DefaultOverlap)
  }

  /** Part `p` comes from a non-blank page among `pages`, numbered from
      `first`, and is one of that page's chunks. */
  predicate FromPage(pages: seq<string>, first: nat, p: Part) {
    first <= p.page < first + |pages| && !Blank(pages[p.page - first]) && p.text in PageChunks(pages[p.page - first])
  }

  predicate AllFromPages(pages: seq<string>, first: nat, r: seq<Part>) {
    forall i | 0 <= i < |r| :: FromPage(pages, first, r[i])
  }

  predicate PageOrdered(r: seq<Part>) {
    forall i, j | 0 <= i < j < |r| :: r[i].page <= r[j].page
  }

  /** Every part is a chunk of the non-blank page it names, and the parts
      come page by page. */
  lemma {:induction false} PartsShape(pages: seq<string>, first: nat)
    ensures AllFromPages(pages, first, Parts(pages, first))
    ensures PageOrdered(Parts(pages, first))
    ensures forall i | 0 <= i < |Parts(pages, first)| :: Parts(pages, first)[i].page >= first
  {
    if |pages| > 0 {
      var here := if Blank(pages[0]) then [] else PartsOfPage(first, PageChunks(pages[0]));
      var rest := Parts(pages[1..], first + 1);
      PartsShape(pages[1..], first + 1);
      assert Parts(pages, first) == here + rest;
      HereFromPage(pages, first, here);
      RestFromPages(pages, first, rest);
      ConcatFromPages(pages, first, here, rest);
    }
  }

  lemma HereFromPage(pages: seq<string>, first: nat, here: seq<Part>)
    requires |pages| > 0
    requires here == if Blank(pages[0]) then [] else PartsOfPage(first, PageChunks(pages[0]))
    ensures AllFromPages(pages, first, here) && forall i | 0 <= i < |here| :: here[i].page == first
  {
    if !Blank(pages[0]) {
      forall i | 0 <= i < |here|
        ensures FromPage(pages, first, here[i])
      {
        assert here[i] == Part(first, PageChunks(pages[0])[i]);
      }
    }
  }

  lemma RestFromPages(pages: seq<string>, first: nat, rest: seq<Part>)
    requires |pages| > 0 && AllFromPages(pages[1..], first + 1, rest)
    ensures AllFromPages(pages, first, rest) && forall i | 0 <= i < |rest| :: rest[i].page > first
  {
    forall i | 0 <= i < |rest|
      ensures FromPage(pages, first, rest[i]) && rest[i].page > first
    {
      var p := rest[i].page;
      assert FromPage(pages[1..], first + 1, rest[i]);
      assert first + 1 <= p < first + |pages|;
      assert pages[1..][p - first - 1] == pages[p - first];
    }
  }

  lemma ConcatFromPages(pages: seq<string>, first: nat, here: seq<Part>, rest: seq<Part>)
    requires AllFromPages(pages, first, here) && AllFromPages(pages, first, rest)
    requires (forall i | 0 <= i < |here| :: here[i].page == first) && PageOrdered(rest)
    requires forall i | 0 <= i < |rest| :: rest[i].page > first
    ensures AllFromPages(pages, first, here + rest) && PageOrdered(here + rest)
    ensures forall i | 0 <= i < |here + rest| :: (here + rest)[i].page >= first
  {
    var r := here + rest;
    forall i | 0 <= i < |r|
      ensures FromPage(pages, first, r[i]) && r[i].page >= first
    {
      if i < |here| {
        assert r[i] == here[i];
      } else {
        assert r[i] == rest[i - |here|];
      }
    }
    forall i, j | 0 <= i < j < |r|
      ensures r[i].page <= r[j].page
    {
      if i >= |here| {
        assert r[i] == rest[i - |here|] && r[j] == rest[j - |here|];
      } else if j >= |here| {
        assert r[i] == here[i] && r[j] == rest[j - |here|];
      }
    }
  }

  function PartsOfPage(page: nat, chunks: seq<string>): (r: seq<Part>)
    ensures |r| == |chunks|
    ensures forall i | 0 <= i < |r| :: r[i] == Part(page, chunks[i])
  {
    seq(|chunks|, i requires 0 <= i < |chunks| => Part(page, chunks[i]))
  }

  /** The parts the chunk loop labels: it stops taking parts once it holds
      `MaxChunks` of them. */
  function Taken(parts: seq<Part>): (r: seq<Part>)
    ensures |r| <= MaxChunks && |r| <= |parts| && r == parts[..|r|]
    ensures |parts| <= MaxChunks ==> r == parts
  {
    if |parts| <= MaxChunks then parts else parts[..MaxChunks]
  }

  // ---------------------------------------------------------------------
  // Labelling

  /** The loop's state: the section carried forward, and whether the
      references have started. */
  datatype Cursor = Cursor(current: string, inReferences: bool)

  const Initial := Cursor("Unknown", false)

  predicate IsReferences(name: string) {
    Lower(name) == "references" || Lower(name) == "reference"
  }

  /** The section a part is labelled with and the state after it. Before
      the references, a part with headings takes its first heading, and its
      last heading becomes the current section unless it is "Keywords"; a
      part without headings takes the current section. Once the references
      have started every part is "References". */
  function Label(c: Cursor, text: string, headings: string -> seq<string>): (r: (string, Cursor))
    ensures c.inReferences ==> r == ("References", Cursor("References", true))
    ensures !c.inReferences && headings(text) == [] ==> r == (c.current, c)
    ensures !c.inReferences && headings(text) != [] ==>
      var found := headings(text);
      var last := found[|found| - 1];
      r.0 == found[0]
      && r.1.current == (if Lower(last) != "keywords" then last else c.current)
      && (r.1.inReferences <==> IsReferences(last))
  {
    if c.inReferences then ("References", Cursor("References", true))
    else
      var found := headings(text);
      if |found| == 0 then (c.current, c)
      else
        var last := found[|found| - 1];
        (found[0], Cursor(if Lower(last) != "keywords" then last else c.current, IsReferences(last)))
  }

  /** `section or "Unknown"`. */
  function SectionName(s: string): (r: string)
    ensures r != ""
    ensures s != "" ==> r == s
  {
    if s == "" then "Unknown" else s
  }

  /** The state after the first `k` parts. */
  function CursorAt(parts: seq<Part>, c: Cursor, k: nat, headings: string -> seq<string>): Cursor
    requires k <= |parts|
  {
    if k == 0 then c else Label(CursorAt(parts, c, k - 1, headings), parts[k - 1].text, headings).1
  }

  /** The chunks of the response for `parts`, numbered from `n`, starting
      in state `c`. */
  function LabelAll(parts: seq<Part>, c: Cursor, n: nat, headings: string -> seq<string>): (r: seq<Labelled>)
    ensures |r| == |parts|
    ensures forall i | 0 <= i < |r| ::
      r[i].order == n + i && r[i].id == "c_" + NatToString(n + i)
      && r[i].text == parts[i].text && r[i].page == parts[i].page && r[i].section != ""
  {
    if |parts| == 0 then []
    else
      var (section, next) := Label(c, parts[0].text, headings);
      [Labelled("c_" + NatToString(n), parts[0].text, SectionName(section), parts[0].page, n)]
        + LabelAll(parts[1..], next, n + 1, headings)
  }

  /** Each chunk's section is the one `Label` gives it in the state left by
      the parts before it. */
  lemma {:induction false} LabelAllAt(parts: seq<Part>, c: Cursor, n: nat, headings: string -> seq<string>, k: nat)
    requires k < |parts|
    ensures LabelAll(parts, c, n, headings)[k].section
         == SectionName(Label(CursorAt(parts, c, k, headings), parts[k].text, headings).0)
    decreases k
  {
    var (section, next) := Label(c, parts[0].text, headings);
    var rest := LabelAll(parts[1..], next, n + 1, headings);
    assert LabelAll(parts, c, n, headings)
        == [Labelled("c_" + NatToString(n), parts[0].text, SectionName(section), parts[0].page, n)] + rest;
    if k == 0 {
      assert CursorAt(parts, c, 0, headings) == c;
    } else {
      assert LabelAll(parts, c, n, headings)[k] == rest[k - 1];
      LabelAllAt(parts[1..], next, n + 1, headings, k - 1);
      CursorShift(parts, c, headings, k);
      assert parts[1..][k - 1] == parts[k];
    }
  }

  /** Starting one part later from the state after the first part. */
  lemma {:induction false} CursorShift(parts: seq<Part>, c: Cursor, headings: string -> seq<string>, k: nat)
    requires 1 <= k <= |parts|
    ensures CursorAt(parts[1..], Label(c, parts[0].text, headings).1, k - 1, headings) == CursorAt(parts, c, k, headings)
    decreases k
  {
    if k > 1 {
      CursorShift(parts, c, headings, k - 1);
      assert parts[1..][k - 2] == parts[k - 1];
    }
  }

  /** Once the references have started they never end. */
  lemma {:induction false} ReferencesLast(parts: seq<Part>, c: Cursor, headings: string -> seq<string>, k: nat, j: nat)
    requires k <= j <= |parts| && CursorAt(parts, c, k, headings).inReferences
    ensures CursorAt(parts, c, j, headings) == if j == k then CursorAt(parts, c, k, headings) else Cursor("References", true)
    decreases j
  {
    if j > k {
      ReferencesLast(parts, c, headings, k, j - 1);
    }
  }

  /** Every chunk after a part whose last heading is "References" (or
      "Reference", in any case) is labelled "References", whatever
      headings it holds. */
  lemma ReferencesStick(parts: seq<Part>, n: nat, headings: string -> seq<string>, k: nat)
    requires k < |parts| && CursorAt(parts, Initial, k + 1, headings).inReferences
    ensures forall j | k < j < |parts| :: LabelAll(parts, Initial, n, headings)[j].section == "References"
  {
    forall j | k < j < |parts|
      ensures LabelAll(parts, Initial, n, headings)[j].section == "References"
    {
      ReferencesLast(parts, Initial, headings, k + 1, j);
      LabelAllAt(parts, Initial, n, headings, j);
    }
  }

  /** A "Keywords" heading labels its own chunk, while the chunks after it
      stay in the section before it. */
  lemma KeywordsNotCarried(c: Cursor, text: string, headings: string -> seq<string>)
    requires !c.inReferences && headings(text) == ["Keywords"]
    ensures Label(c, text, headings) == ("Keywords", c)
  {
    assert Lower("Keywords") == "keywords";
    assert !IsReferences("Keywords") by {
      assert Lower("Keywords") != "references" && Lower("Keywords") != "reference";
    }
  }

  // ---------------------------------------------------------------------
  // Section runs

  /** Consecutive chunks with the same section, grouped into runs with the
      page of their first and last chunk. */
  function Runs(ls: seq<Labelled>): (r: seq<SectionRun>)
    ensures |r| <= |ls| && (|r| == 0 <==> |ls| == 0)
    ensures |ls| > 0 ==> r[0].name == ls[0].section && r[0].startPage == ls[0].page
    ensures |ls| > 0 ==> r[|r| - 1].name == ls[|ls| - 1].section && r[|r| - 1].endPage == ls[|ls| - 1].page
    ensures forall i | 0 <= i < |r| - 1 :: r[i].name != r[i + 1].name
  {
    if |ls| == 0 then []
    else
      var init := Runs(ls[..|ls| - 1]);
      var x := ls[|ls| - 1];
      if |init| > 0 && init[|init| - 1].name == x.section then
        init[..|init| - 1] + [init[|init| - 1].(endPage := x.page)]
      else
        init + [SectionRun(x.section, x.page, x.page)]
  }

  /** The sequence with every run of equal neighbours reduced to one. */
  function Squash(s: seq<string>): (r: seq<string>)
  {
    if |s| == 0 then []
    else
      var t := Squash(s[..|s| - 1]);
      if |t| > 0 && t[|t| - 1] == s[|s| - 1] then t else t + [s[|s| - 1]]
  }

  function Names(r: seq<SectionRun>): seq<string> {
    seq(|r|, i requires 0 <= i < |r| => r[i].name)
  }

  function Sections(ls: seq<Labelled>): seq<string> {
    seq(|ls|, i requires 0 <= i < |ls| => ls[i].section)
  }

  /** The run names are the chunk sections with repeats squashed. */
  lemma NamesRenew(r: seq<SectionRun>, p: int)
    requires |r| > 0
    ensures Names(r[..|r| - 1] + [r[|r| - 1].(endPage := p)]) == Names(r)
  {
    var r' := r[..|r| - 1] + [r[|r| - 1].(endPage := p)];
    forall k | 0 <= k < |r'|
      ensures Names(r')[k] == Names(r)[k]
    {
      if k < |r| - 1 {
        assert r'[k] == r[k];
      }
    }
  }

  lemma NamesAppend(r: seq<SectionRun>, run: SectionRun)
    ensures Names(r + [run]) == Names(r) + [run.name]
  {
    var r' := r + [run];
    forall k | 0 <= k < |r'|
      ensures Names(r')[k] == (Names(r) + [run.name])[k]
    {
      if k < |r| {
        assert r'[k] == r[k];
      }
    }
  }

  lemma {:induction false} RunNames(ls: seq<Labelled>)
    ensures Names(Runs(ls)) == Squash(Sections(ls))
  {
    if |ls| > 0 {
      var init := ls[..|ls| - 1];
      var x := ls[|ls| - 1];
      RunNames(init);
      assert Sections(ls)[..|ls| - 1] == Sections(init);
      var r := Runs(init);
      if |r| > 0 && r[|r| - 1].name == x.section {
        NamesRenew(r, x.page);
      } else {
        NamesAppend(r, SectionRun(x.section, x.page, x.page));
      }
    }
  }

  predicate PagesInOrder(ls: seq<Labelled>) {
    forall i, j | 0 <= i < j < |ls| :: ls[i].page <= ls[j].page
  }

  /** Each run starts no later than it ends, no earlier than the one before
      it ends, and ends by page `bound`. */
  predicate RunsInOrder(r: seq<SectionRun>, bound: int) {
    (forall i | 0 <= i < |r| :: r[i].startPage <= r[i].endPage <= bound)
    && (forall i | 0 <= i < |r| - 1 :: r[i].endPage <= r[i + 1].startPage)
  }

  lemma ExtendLast(r0: seq<SectionRun>, p: int, q: int)
    requires RunsInOrder(r0, p) && |r0| > 0 && p <= q
    ensures RunsInOrder(r0[..|r0| - 1] + [r0[|r0| - 1].(endPage := q)], q)
  {
    var r := r0[..|r0| - 1] + [r0[|r0| - 1].(endPage := q)];
    assert forall i | 0 <= i < |r0| - 1 :: r[i] == r0[i];
  }

  lemma AppendRun(r0: seq<SectionRun>, p: int, name: string, q: int)
    requires RunsInOrder(r0, p) && p <= q
    ensures RunsInOrder(r0 + [SectionRun(name, q, q)], q)
  {
    var r := r0 + [SectionRun(name, q, q)];
    assert forall i | 0 <= i < |r0| :: r[i] == r0[i];
  }

  /** With chunks in page order, each run starts no later than it ends, and
      each starts no earlier than the one before it ends. */
  lemma {:induction false} RunPages(ls: seq<Labelled>)
    requires PagesInOrder(ls) && |ls| > 0
    ensures RunsInOrder(Runs(ls), ls[|ls| - 1].page)
  {
    var init := ls[..|ls| - 1];
    var x := ls[|ls| - 1];
    var r0 := Runs(init);
    var bound := x.page;
    if |init| > 0 {
      assert PagesInOrder(init);
      RunPages(init);
      assert init[|init| - 1] == ls[|ls| - 2];
      bound := init[|init| - 1].page;
    }
    assert RunsInOrder(r0, bound);
    if |r0| > 0 && r0[|r0| - 1].name == x.section {
      ExtendLast(r0, bound, x.page);
    } else {
      AppendRun(r0, bound, x.section, x.page);
    }
  }

  // ---------------------------------------------------------------------
  // The route

  /** The response for the pages that were read. */
  function Build(doc: Document, filename: string, texts: seq<string>, headings: string -> seq<string>): Extracted {
    var chunks := LabelAll(Taken(Parts(texts, 1)), Initial, 0, headings);
    Extracted(MetaOf(doc, filename, |texts|), Runs(chunks), chunks)
  }

  /** The shape every response has: at most `MaxChunks` chunks numbered
      `c_0`, `c_1`, ... in page order, each on a page that was read and with
      a non-empty section, and the runs computed from them. */
  predicate WellFormed(e: Extracted) {
    |e.chunks| <= MaxChunks && e.sections == Runs(e.chunks) && PagesInOrder(e.chunks)
    && forall i | 0 <= i < |e.chunks| ::
         e.chunks[i].order == i && e.chunks[i].id == "c_" + NatToString(i)
         && 1 <= e.chunks[i].page <= e.meta.pages && e.chunks[i].section != ""
  }

  lemma BuildShape(doc: Document, filename: string, texts: seq<string>, headings: string -> seq<string>)
    ensures WellFormed(Build(doc, filename, texts, headings))
  {
    var all := Parts(texts, 1);
    PartsShape(texts, 1);
    var parts := Taken(all);
    var chunks := LabelAll(parts, Initial, 0, headings);
    forall i | 0 <= i < |chunks|
      ensures 1 <= chunks[i].page <= |texts|
    {
      assert chunks[i].page == parts[i].page == all[i].page;
      assert FromPage(texts, 1, all[i]);
    }
    forall i, j | 0 <= i < j < |chunks|
      ensures chunks[i].page <= chunks[j].page
    {
      assert chunks[i].page == all[i].page && chunks[j].page == all[j].page;
    }
  }

  /** `POST /extract`: a name that does not end in `.pdf` is a 400, and so
      is a file the PDF library cannot open; otherwise the metadata, the
      section runs and the labelled chunks. */
  method Extract(filename: string, file: Result<Document>, headings: string -> seq<string>)
    returns (r: Result<Extracted>, err: Option<HttpError>)
    ensures r.Failure? <==> err.Some?
    ensures !IsPdfName(filename) ==> err == Some(HttpError(400, "Only PDF files are supported"))
    ensures IsPdfName(filename) && file.Failure? ==> err == Some(HttpError(400, "Failed to read PDF: " + file.error))
    ensures IsPdfName(filename) && file.Success? ==> r.Success?
    ensures r.Success? ==> r.value == Build(file.value, filename, PagesRead(file.value.pages), headings)
    ensures r.Success? ==> WellFormed(r.value) && r.value.meta.pages <= MaxPages
                           && r.value.meta == MetaOf(file.value, filename, r.value.meta.pages)
  {
    if !IsPdfName(filename) {
      return Failure("Only PDF files are supported"), Some(HttpError(400, "Only PDF files are supported"));
    }
    if file.Failure? {
      var detail := "Failed to read PDF: " + file.error;
      return Failure(detail), Some(HttpError(400, detail));
    }
    var texts := ReadPages(file.value.pages);
    PagesReadOrder(file.value.pages);
    BuildShape(file.value, filename, texts, headings);
    r := Success(Build(file.value, filename, texts, headings));
    err := None;
  }

  /** What the backend keeps of the response: the title, the runs, and
      each chunk's text, section, page and order. */
  function ToExtraction(e: Extracted): (x: Extraction)
    ensures x.title == Some(e.meta.title) && x.sections == e.sections && |x.pieces| == |e.chunks|
    ensures forall i | 0 <= i < |x.pieces| ::
      x.pieces[i] == Piece(e.chunks[i].text, e.chunks[i].section, e.chunks[i].page, e.chunks[i].order)
  {
    Extraction(Some(e.meta.title), e.sections,
               seq(|e.chunks|, i requires 0 <= i < |e.chunks| =>
                 Piece(e.chunks[i].text, e.chunks[i].section, e.chunks[i].page, e.chunks[i].order)))
  }
}
