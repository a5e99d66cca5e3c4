/** The embedder's title heuristic for the first page of a PDF: the text
    lines of the page are filtered, the largest-font line with at least four
    words is chosen, and the lines of about its size nearest the top of the
    page (at most two) make the title. The page's text layout is a value:
    its lines in reading order, each with its spans and vertical position. */
module TitleHeuristic {
  import opened Wrappers
  import opened Strings
  import opened Sorting
  import opened Seqs

  /** A run of text with one font: its text and its font size. */
  datatype Span = Span(text: Option<string>, size: real)

  /** A line of the layout: its spans and the top of its bounding box. */
  datatype RawLine = RawLine(spans: seq<Span>, y: real)

  /** A line kept for the heuristic: its spans' text joined with spaces,
      the largest of their sizes, and its position. */
  datatype Line = Line(text: string, size: real, y: real)

  // ---------------------------------------------------------------------
  // Lines

  function SpanText(s: Span): string {
    PyStrip(if s.text.Some? then s.text.value else "")
  }

  predicate HasText(s: Span) {
    SpanText(s) != ""
  }

  function Texts(spans: seq<Span>): (r: seq<string>)
    ensures |r| == |spans|
    ensures forall i | 0 <= i < |r| :: r[i] == SpanText(spans[i])
  {
    seq(|spans|, i requires 0 <= i < |spans| => SpanText(spans[i]))
  }

  /** The largest size of a non-empty list. */
  function MaxSize(spans: seq<Span>): (m: real)
    requires |spans| > 0
    ensures forall i | 0 <= i < |spans| :: spans[i].size <= m
    ensures exists i | 0 <= i < |spans| :: spans[i].size == m
  {
    if |spans| == 1 then spans[0].size
    else
      var m := MaxSize(spans[1..]);
      assert forall i | 1 <= i < |spans| :: spans[i] == spans[1..][i - 1];
      if spans[0].size >= m then spans[0].size else m
  }

  /** The text of a line begins, once stripped, with a non-space. */
  predicate HasWords(text: string) {
    PyStrip(text) != "" && !IsPySpace(PyStrip(text)[0])
  }

  /** The line for a layout line: the spans with text, joined with spaces,
      at the largest of their sizes; nothing when no span has text. */
  function LineOf(raw: RawLine): (r: Option<Line>)
    ensures r.None? <==> forall s | s in raw.spans :: !HasText(s)
    ensures r.Some? ==> r.value.y == raw.y && HasWords(r.value.text)
  {
    var kept := Filter(raw.spans, HasText);
    if |kept| == 0 then None
    else
      var texts := Texts(kept);
      JoinedHasWords(texts);
      Some(Line(Join(texts, " "), MaxSize(kept), raw.y))
  }

  lemma JoinedHasWords(texts: seq<string>)
    requires |texts| > 0 && texts[0] != "" && !IsPySpace(texts[0][0])
    ensures HasWords(Join(texts, " "))
  {
    JoinEnds(texts, " ");
    FirstCharKept(Join(texts, " "), texts[0]);
  }

  /** A line's size is the largest size among its spans with text. */
  lemma LineSize(raw: RawLine)
    requires LineOf(raw).Some?
    ensures exists s | s in raw.spans && HasText(s) :: s.size == LineOf(raw).value.size
    ensures forall s | s in raw.spans && HasText(s) :: s.size <= LineOf(raw).value.size
  {
    var kept := Filter(raw.spans, HasText);
    var m := MaxSize(kept);
    assert LineOf(raw).value.size == m;
    var i :| 0 <= i < |kept| && kept[i].size == m;
    assert kept[i] in raw.spans && HasText(kept[i]);
    forall s | s in raw.spans && HasText(s)
      ensures s.size <= m
    {
      assert s in kept;
    }
  }

  /** Lines that are obviously not the title: shorter than six characters,
      a label such as "Abstract" or "Received:", a copyright notice, or any
      line that mentions a DOI. */
  predicate IsNoise(text: string) {
    var lower := Lower(text);
    |text| < 6
    || StartsWith(lower, "abstract") || StartsWith(lower, "keywords")
    || StartsWith(lower, "received:") || StartsWith(lower, "revised:") || StartsWith(lower, "accepted:")
    || Contains(lower, "doi")
    || StartsWith(lower, "copyright") || StartsWith(lower, "licensee")
  }

  predicate Kept(l: Line) {
    !IsNoise(l.text)
  }

  /** The present values, in order. */
  function Somes<T(==)>(s: seq<Option<T>>): (r: seq<T>)
    ensures forall x | x in r :: Some(x) in s
    ensures forall o | o in s && o.Some? :: o.value in r
  {
    if |s| == 0 then []
    else
      var rest := Somes(s[1..]);
      assert forall o | o in s && o != s[0] :: o in s[1..];
      if s[0].Some? then [s[0].value] + rest else rest
  }

  function LinesOf(raws: seq<RawLine>): (r: seq<Option<Line>>)
    ensures |r| == |raws|
    ensures forall k | 0 <= k < |raws| :: r[k] == LineOf(raws[k])
  {
    seq(|raws|, k requires 0 <= k < |raws| => LineOf(raws[k]))
  }

  /** The lines the heuristic considers, in layout order: every layout line
      with text that is not noise. */
  function Lines(raws: seq<RawLine>): (r: seq<Line>)
    ensures forall l | l in r :: !IsNoise(l.text) && HasWords(l.text) && Some(l) in LinesOf(raws)
    ensures forall k | 0 <= k < |raws| && LineOf(raws[k]).Some? && !IsNoise(LineOf(raws[k]).value.text) ::
              LineOf(raws[k]).value in r
  {
    var all := LinesOf(raws);
    var present := Somes(all);
    assert forall l | l in present :: HasWords(l.text) by {
      forall l | l in present
        ensures HasWords(l.text)
      {
        var k :| 0 <= k < |all| && all[k] == Some(l);
      }
    }
    assert forall k | 0 <= k < |raws| && LineOf(raws[k]).Some? :: LineOf(raws[k]).value in present by {
      forall k | 0 <= k < |raws| && LineOf(raws[k]).Some?
        ensures LineOf(raws[k]).value in present
      {
        assert all[k] in all;
      }
    }
    Filter(present, Kept)
  }

  // ---------------------------------------------------------------------
  // Choosing the title line

  function Size(l: Line): real {
    l.size
  }

  function Height(l: Line): real {
    -l.y
  }

  /** The lines by size, largest first, and from the top of the page among
      equal sizes. */
  function BySize(lines: seq<Line>): seq<Line> {
    Sort(Sort(lines, Height), Size)
  }

  predicate Wordy(l: Line) {
    WordCount(l.text) >= 4
  }

  /** The first line with at least four words in size order, else the
      largest line. */
  function Chosen(lines: seq<Line>): (c: Line)
    requires |lines| > 0
    ensures c in lines
  {
    var sorted := BySize(lines);
    assert sorted[0] in multiset(lines);
    var k := FirstWhere(sorted, Wordy);
    if k >= 0 then
      assert sorted[k] in multiset(lines);
      sorted[k]
    else sorted[0]
  }

  /** The chosen line is a largest line among those with at least four
      words; when no line has four words it is a largest line. */
  lemma ChosenIsLargest(lines: seq<Line>)
    requires |lines| > 0
    ensures var c := Chosen(lines);
      ((exists l | l in lines :: Wordy(l)) ==> Wordy(c) && forall l | l in lines && Wordy(l) :: l.size <= c.size)
      && ((forall l | l in lines :: !Wordy(l)) ==> forall l | l in lines :: l.size <= c.size)
  {
    var sorted := BySize(lines);
    SortSorted(Sort(lines, Height), Size);
    var k := FirstWhere(sorted, Wordy);
    var c := Chosen(lines);
    assert c == sorted[if k >= 0 then k else 0];
    forall l | l in lines
      ensures (Wordy(l) ==> k >= 0 && l.size <= sorted[k].size) && l.size <= sorted[0].size
    {
      assert l in multiset(sorted);
      FirstWhereLargest(sorted, Size, Wordy, l);
    }
  }

  /** In a sequence sorted by `key`, largest first, the first element that
      satisfies `p` has the largest key among those that do, and the first
      element the largest key of all. */
  lemma FirstWhereLargest<T>(sorted: seq<T>, key: T -> real, p: T -> bool, x: T)
    requires SortedDesc(sorted, key) && x in sorted
    ensures var k := FirstWhere(sorted, p);
      (p(x) ==> k >= 0 && key(x) <= key(sorted[k])) && key(x) <= key(sorted[0])
  {
    var j :| 0 <= j < |sorted| && sorted[j] == x;
  }

  // ---------------------------------------------------------------------
  // The title

  /** The lines whose size is at most half a point below `size`. */
  function Near(lines: seq<Line>, size: real): (r: seq<Line>)
    ensures forall x | x in r :: x in lines && x.size >= size - 0.5
    ensures forall l | l in lines && l.size >= size - 0.5 :: l in r
  {
    if |lines| == 0 then []
    else
      var rest := Near(lines[1..], size);
      assert forall l | l in lines && l != lines[0] :: l in lines[1..];
      if lines[0].size >= size - 0.5 then [lines[0]] + rest else rest
  }

  /** The lines near `c` in size from the top of the page down, at most
      two. */
  function Highest(lines: seq<Line>, c: Line): (r: seq<Line>)
    requires c in lines
    ensures 1 <= |r| <= 2
    ensures forall i | 0 <= i < |r| :: r[i] in lines && r[i].size >= c.size - 0.5
  {
    var near := Near(lines, c.size);
    assert c in near;
    TakeSortedMembers(near, 2, Height);
    Take(Sort(near, Height), 2)
  }

  /** Every line near `c` in size that `Highest` leaves out lies no higher
      than the ones it takes. */
  lemma HighestAreTop(lines: seq<Line>, c: Line)
    requires c in lines
    ensures forall l | l in lines && l.size >= c.size - 0.5 && l !in Highest(lines, c) ::
        forall i | 0 <= i < |Highest(lines, c)| :: Highest(lines, c)[i].y <= l.y
  {
    var near := Near(lines, c.size);
    var r := Highest(lines, c);
    assert r == Take(Sort(near, Height), 2);
    forall l | l in near && l !in r
      ensures forall i | 0 <= i < |r| :: r[i].y <= l.y
    {
      TakeSortedLargest(near, Height, 2, l);
      assert forall i | 0 <= i < |r| :: Height(r[i]) >= Height(l);
    }
  }

  /** The title lines: those near the chosen line in size, from the top of
      the page down, at most two. */
  function TitleLines(lines: seq<Line>): (r: seq<Line>)
    requires |lines| > 0
    ensures 1 <= |r| <= 2
    ensures forall i | 0 <= i < |r| :: r[i] in lines && r[i].size >= Chosen(lines).size - 0.5
  {
    Highest(lines, Chosen(lines))
  }

  /** The title lines are the highest on the page among the near lines:
      every near line left out lies no higher than the ones taken. */
  lemma TitleLinesHighest(lines: seq<Line>)
    requires |lines| > 0
    ensures forall l | l in lines && l.size >= Chosen(lines).size - 0.5 && l !in TitleLines(lines) ::
        forall i | 0 <= i < |TitleLines(lines)| :: TitleLines(lines)[i].y <= l.y
  {
    HighestAreTop(lines, Chosen(lines));
  }

  /** `" ".join(...)` of the title lines, stripped, with whitespace runs
      made single spaces; nothing when it is empty. */
  function Finish(parts: seq<string>): (t: Option<string>)
    ensures t.Some? ==> t.value != "" && NoEdgeSpace(t.value, IsPySpace)
                        && NoDoubleSpace(t.value, IsPySpace) && OnlyPlainSpaces(t.value, IsPySpace)
    ensures |parts| > 0 && parts[0] != "" && !IsPySpace(parts[0][0]) ==> t.Some?
  {
    var joined := PyStrip(Join(parts, " "));
    CollapseNoEdge(joined, IsPySpace);
    CollapseShape(joined, IsPySpace);
    assert |parts| > 0 && parts[0] != "" && !IsPySpace(parts[0][0]) ==> Collapse(joined, IsPySpace) != "" by {
      if |parts| > 0 && parts[0] != "" && !IsPySpace(parts[0][0]) {
        JoinEnds(parts, " ");
        FirstCharKept(Join(parts, " "), parts[0]);
        CollapseHead(joined, IsPySpace);
      }
    }
    var title := Collapse(joined, IsPySpace);
    if title != "" then Some(title) else None
  }

  function LineTexts(r: seq<Line>): (texts: seq<string>)
    ensures |texts| == |r|
    ensures forall i | 0 <= i < |r| :: texts[i] == PyStrip(r[i].text)
  {
    seq(|r|, i requires 0 <= i < |r| => PyStrip(r[i].text))
  }

  /** `extract_title_from_first_page`: nothing when the first page cannot be
      read or none of its lines survives the filter. */
  function Title(page: Option<seq<RawLine>>): (t: Option<string>)
    ensures t.Some? ==> t.value != "" && NoEdgeSpace(t.value, IsPySpace)
                        && NoDoubleSpace(t.value, IsPySpace) && OnlyPlainSpaces(t.value, IsPySpace)
    ensures t.Some? <==> page.Some? && Lines(page.value) != []
  {
    if page.None? then None
    else
      var lines := Lines(page.value);
      if |lines| == 0 then None
      else
        var r := TitleLines(lines);
        var texts := LineTexts(r);
        assert r[0] in lines;
        Finish(texts)
  }

  /** A string that starts with a text beginning with a non-space keeps a
      non-empty text, starting with a non-space, once stripped. */
  lemma FirstCharKept(s: string, p: string)
    requires StartsWith(s, p) && p != "" && !IsPySpace(p[0])
    ensures PyStrip(s) != "" && !IsPySpace(PyStrip(s)[0])
  {
    assert s[0] == p[0];
    assert TrimStart(s, IsPySpace) == s;
    TrimEndKeepsHead(s);
  }

  lemma {:induction false} TrimEndKeepsHead(s: string)
    requires |s| > 0 && !IsPySpace(s[0])
    ensures |TrimEnd(s, IsPySpace)| > 0
    decreases |s|
  {
    if |s| > 1 && IsPySpace(s[|s| - 1]) {
      TrimEndKeepsHead(s[..|s| - 1]);
    }
  }
}
