/** The embedder's text helpers: the overlapping, sentence-aware chunker
    that splits a page's text, and the normalisation of a detected heading. */
module TextChunker {
  import opened Wrappers
  import opened Strings
  import opened Seqs

  const DefaultMaxChars := 1800
  const DefaultOverlap := 200

  // ---------------------------------------------------------------------
  // Heading normalisation

  /** The characters of a leading section number: digits, dots, whitespace. */
  predicate IsNumbering(c: char) {
    IsDigit(c) || c == '.' || IsPySpace(c)
  }

  /** Strips the text, drops a leading run of digits, dots and whitespace
      ("1.2 "), and turns every whitespace run into one space. */
  function NormalizeHeading(text: string): (r: string)
    ensures NoEdgeSpace(r, IsPySpace)
    ensures NoDoubleSpace(r, IsPySpace) && OnlyPlainSpaces(r, IsPySpace)
    ensures |r| > 0 ==> !IsDigit(r[0]) && r[0] != '.'
  {
    var cleaned := PyStrip(text);
    var dropped := TrimStart(cleaned, IsNumbering);
    NumberingDropped(cleaned, dropped);
    CollapseNoEdge(dropped, IsPySpace);
    CollapseShape(dropped, IsPySpace);
    assert |dropped| > 0 ==> Collapse(dropped, IsPySpace)[0] == dropped[0] by {
      if |dropped| > 0 {
        CollapseHead(dropped, IsPySpace);
      }
    }
    Collapse(dropped, IsPySpace)
  }

  lemma NumberingDropped(cleaned: string, dropped: string)
    requires NoEdgeSpace(cleaned, IsPySpace) && dropped == TrimStart(cleaned, IsNumbering)
    ensures NoEdgeSpace(dropped, IsPySpace)
    ensures |dropped| > 0 ==> !IsNumbering(dropped[0])
  {
    if |dropped| > 0 {
      assert dropped[|dropped| - 1] == cleaned[|cleaned| - 1];
    }
  }

  /** A normalised heading is its own normalisation. */
  lemma NormalizeIdempotent(text: string)
    ensures NormalizeHeading(NormalizeHeading(text)) == NormalizeHeading(text)
  {
    var r := NormalizeHeading(text);
    assert PyStrip(r) == r;
    assert TrimStart(r, IsNumbering) == r by {
      if |r| > 0 {
        assert !IsPySpace(r[0]);
      }
    }
    CollapseFixed(r, IsPySpace);
  }

  // ---------------------------------------------------------------------
  // Chunking

  /** `s.rfind(". ")`: the position of the last ". ", or -1. */
  function LastPeriod(s: string): (r: int)
    ensures -1 <= r <= |s| - 2 || r == -1
    ensures r >= 0 ==> OccursAt(s, ". ", r)
    ensures forall i | r < i <= |s| - 2 :: !OccursAt(s, ". ", i)
  {
    if |s| < 2 then -1
    else if s[|s| - 2] == '.' && s[|s| - 1] == ' ' then
      assert s[|s| - 2..] == ". ";
      |s| - 2
    else
      var t := s[..|s| - 1];
      var r := LastPeriod(t);
      forall i | r < i <= |s| - 2
        ensures !OccursAt(s, ". ", i)
      {
        if i <= |s| - 3 {
          assert !OccursAt(t, ". ", i);
          assert s[i..i + 2] == t[i..i + 2];
        }
      }
      assert r >= 0 ==> s[r..r + 2] == t[r..r + 2];
      r
  }

  /** The end of the window at `start`: `max_chars` further, or the end of
      the text; inside the text it is pulled back to just after the last
      ". " of the window, when there is one. */
  function WindowEnd(text: string, start: nat, maxChars: int): (end: int)
    requires start < |text| && maxChars >= 1
    ensures start < end <= |text| && end - start <= maxChars
    ensures var w := Min(start + maxChars, |text|);
      var p := LastPeriod(text[start..w]);
      (w == |text| || p == -1 ==> end == w)
      && (w < |text| && p >= 0 ==> end == start + p + 2 && OccursAt(text, ". ", end - 2)
                                   && forall i | end - 2 < i <= w - 2 :: !OccursAt(text, ". ", i))
  {
    var w := Min(start + maxChars, |text|);
    var window := text[start..w];
    var p := LastPeriod(window);
    if p != -1 && w != |text| then
      assert window[p..p + 2] == text[start + p..start + p + 2];
      forall i | start + p < i <= w - 2
        ensures !OccursAt(text, ". ", i)
      {
        assert !OccursAt(window, ". ", i - start);
        assert window[i - start..i - start + 2] == text[i..i + 2];
      }
      start + p + 2
    else w
  }

  /** Where the next window starts: `overlap` before the end, or, when that
      does not move forward, `min(100, max_chars // 2)` after the start. */
  function NextStart(start: int, end: int, overlap: int, maxChars: int): (next: int)
    requires maxChars >= 1
    ensures next >= start
    ensures maxChars >= 2 ==> next > start
    ensures next > start ==> next == end - overlap || next == start + Min(100, maxChars / 2)
  {
    var candidate := end - overlap;
    if candidate <= start then start + Min(100, maxChars / 2) else candidate
  }

  /** The chunk of a window: its text with whitespace stripped. */
  predicate IsChunkOf(text: string, chunk: string, maxChars: int) {
    exists a: nat, b: nat :: a < b <= |text| && b - a <= maxChars && chunk == PyStrip(text[a..b])
  }

  /** A chunk as `chunk_text` emits it: non-empty, within the limit, with
      no whitespace at either end, and the stripped text of one window. */
  predicate GoodChunk(text: string, chunk: string, maxChars: int) {
    chunk != "" && |chunk| <= maxChars && NoEdgeSpace(chunk, IsPySpace) && IsChunkOf(text, chunk, maxChars)
  }

  predicate AllGood(text: string, chunks: seq<string>, maxChars: int) {
    forall k | 0 <= k < |chunks| :: GoodChunk(text, chunks[k], maxChars)
  }

  lemma AllGoodConcat(text: string, a: seq<string>, b: seq<string>, maxChars: int)
    requires AllGood(text, a, maxChars) && AllGood(text, b, maxChars)
    ensures AllGood(text, a + b, maxChars)
  {
    forall k | 0 <= k < |a + b|
      ensures GoodChunk(text, (a + b)[k], maxChars)
    {
      if k < |a| {
        assert (a + b)[k] == a[k];
      } else {
        assert (a + b)[k] == b[k - |a|];
      }
    }
  }

  /** `chunk_text`: a text no longer than `max_chars` is its own only chunk.
      A longer one is cut into windows of at most `max_chars` characters that
      end after a sentence where possible and overlap by `overlap`; each
      window's stripped text is a chunk unless it is empty. At most
      `len(text) // 10 + 100` windows are cut, so the loop always ends. */
  method ChunkText(text: string, maxChars: int, overlap: int) returns (chunks: seq<string>)
    requires maxChars >= 1
    ensures chunks == Chunks(text, maxChars, overlap)
    ensures |text| <= maxChars ==> chunks == [text]
    ensures |text| > maxChars ==> |chunks| <= |text| / 10 + 100 && AllGood(text, chunks, maxChars)
  {
    if |text| <= maxChars {
      return [text];
    }
    chunks := CutWindows(text, maxChars, overlap);
  }

  /** The window loop of `chunk_text`. */
  method CutWindows(text: string, maxChars: int, overlap: int) returns (chunks: seq<string>)
    requires maxChars >= 1
    ensures chunks == Windows(text, 0, 0, maxChars, overlap)
  {
    var n := |text|;
    chunks := [];
    var start: nat := 0;
    var maxIterations := n / 10 + 100;
    var iterations := 0;
    ghost var all := Windows(text, 0, 0, maxChars, overlap);
    while start < n
      invariant 0 <= iterations <= maxIterations
      invariant chunks + Windows(text, start, iterations, maxChars, overlap) == all
      decreases maxIterations - iterations
    {
      var (here, next) := Advance(text, start, iterations, maxChars, overlap);
      LoopStep(text, start, iterations, maxChars, overlap, chunks, all);
      if next.None? {
        return chunks + here;
      }
      chunks := chunks + here;
      start := next.value;
      iterations := iterations + 1;
    }
    LoopEnd(text, start, iterations, maxChars, overlap, chunks, all);
  }

  /** One turn of the window loop keeps the chunks cut so far followed by
      the windows still to come equal to all the windows. */
  lemma LoopStep(text: string, start: nat, iterations: nat, maxChars: int, overlap: int,
                 chunks: seq<string>, all: seq<string>)
    requires maxChars >= 1 && start < |text|
    requires chunks + Windows(text, start, iterations, maxChars, overlap) == all
    ensures Advance(text, start, iterations, maxChars, overlap).1.None? ==>
      chunks + Advance(text, start, iterations, maxChars, overlap).0 == all
    ensures Advance(text, start, iterations, maxChars, overlap).1.Some? ==>
      chunks + Advance(text, start, iterations, maxChars, overlap).0
        + Windows(text, Advance(text, start, iterations, maxChars, overlap).1.value, iterations + 1, maxChars, overlap) == all
  {
    var (here, next) := Advance(text, start, iterations, maxChars, overlap);
    var w := Windows(text, start, iterations, maxChars, overlap);
    if next.None? {
      Shift(chunks, w, here, [], all);
    } else {
      Shift(chunks, w, here, Windows(text, next.value, iterations + 1, maxChars, overlap), all);
    }
  }

  /** Past the end of the text no windows remain. */
  lemma LoopEnd(text: string, start: nat, iterations: nat, maxChars: int, overlap: int,
                chunks: seq<string>, all: seq<string>)
    requires maxChars >= 1 && start >= |text|
    requires chunks + Windows(text, start, iterations, maxChars, overlap) == all
    ensures chunks == all
  {
    WindowsPastEnd(text, start, iterations, maxChars, overlap);
    Shift(chunks, [], [], [], all);
  }

  lemma WindowsPastEnd(text: string, start: nat, iterations: nat, maxChars: int, overlap: int)
    requires maxChars >= 1 && start >= |text|
    ensures Windows(text, start, iterations, maxChars, overlap) == []
  {
  }

  /** Moving the head `h` of the remaining windows `w` into the result `a`. */
  lemma Shift<T>(a: seq<T>, w: seq<T>, h: seq<T>, w2: seq<T>, full: seq<T>)
    requires a + w == full && w == h + w2
    ensures (a + h) + w2 == full
    ensures w2 == [] ==> a + h == full
  {
    assert a + (h + w2) == (a + h) + w2;
  }

  lemma StripShorter(s: string)
    ensures |PyStrip(s)| <= |s|
  {
  }

  /** The chunks `chunk_text` returns, as a function of its arguments. */
  function Chunks(text: string, maxChars: int, overlap: int): (r: seq<string>)
    requires maxChars >= 1
    ensures |text| <= maxChars ==> r == [text]
    ensures |text| > maxChars ==> |r| <= |text| / 10 + 100 && AllGood(text, r, maxChars)
  {
    if |text| <= maxChars then [text]
    else
      WindowsGood(text, 0, 0, maxChars, overlap);
      Windows(text, 0, 0, maxChars, overlap)
  }

  /** The chunk of the window at `start`, if it has any non-whitespace text. */
  function WindowChunk(text: string, start: nat, maxChars: int): (r: seq<string>)
    requires start < |text| && maxChars >= 1
    ensures |r| <= 1 && AllGood(text, r, maxChars)
  {
    var end := WindowEnd(text, start, maxChars);
    var chunk := PyStrip(text[start..end]);
    StripShorter(text[start..end]);
    assert chunk != "" ==> IsChunkOf(text, chunk, maxChars);
    if chunk != "" then [chunk] else []
  }

  /** The chunks of the windows from `start` on, once `iterations` windows
      have been cut: one per window with some non-whitespace text. */
  function Windows(text: string, start: nat, iterations: nat, maxChars: int, overlap: int): (r: seq<string>)
    requires maxChars >= 1
    ensures iterations <= |text| / 10 + 100 ==> |r| <= |text| / 10 + 100 - iterations
    decreases |text| / 10 + 100 - iterations
  {
    if start >= |text| || iterations + 1 > |text| / 10 + 100 then []
    else
      var end := WindowEnd(text, start, maxChars);
      var here := WindowChunk(text, start, maxChars);
      if end >= |text| then here
      else
        var next := NextStart(start, end, overlap, maxChars);
        if next >= |text| then here
        else here + Windows(text, next, iterations + 1, maxChars, overlap)
  }

  lemma {:induction false} WindowsGood(text: string, start: nat, iterations: nat, maxChars: int, overlap: int)
    requires maxChars >= 1
    ensures AllGood(text, Windows(text, start, iterations, maxChars, overlap), maxChars)
    decreases |text| / 10 + 100 - iterations
  {
    if start < |text| && iterations + 1 <= |text| / 10 + 100 {
      var end := WindowEnd(text, start, maxChars);
      var here := WindowChunk(text, start, maxChars);
      var next := NextStart(start, end, overlap, maxChars);
      if end < |text| && next < |text| {
        WindowsGood(text, next, iterations + 1, maxChars, overlap);
        AllGoodConcat(text, here, Windows(text, next, iterations + 1, maxChars, overlap), maxChars);
      }
    }
  }

  /** One window: its chunk, and where the next window starts unless the
      loop stops here. */
  function Advance(text: string, start: nat, iterations: nat, maxChars: int, overlap: int)
    : (r: (seq<string>, Option<nat>))
    requires maxChars >= 1 && start < |text|
    ensures r.1.Some? ==> iterations + 1 <= |text| / 10 + 100
    ensures Windows(text, start, iterations, maxChars, overlap)
         == r.0 + (if r.1.None? then [] else Windows(text, r.1.value, iterations + 1, maxChars, overlap))
  {
    if iterations + 1 > |text| / 10 + 100 then ([], None)
    else
    var end := WindowEnd(text, start, maxChars);
    var here := WindowChunk(text, start, maxChars);
    var next := NextStart(start, end, overlap, maxChars);
    WindowsStep(text, start, iterations, maxChars, overlap);
    if end >= |text| || next >= |text| then
      assert here + [] == here;
      (here, None)
    else (here, Some(next))
  }

  lemma WindowsStep(text: string, start: nat, iterations: nat, maxChars: int, overlap: int)
    requires maxChars >= 1 && start < |text| && iterations + 1 <= |text| / 10 + 100
    ensures var end := WindowEnd(text, start, maxChars);
      var here := WindowChunk(text, start, maxChars);
      var next := NextStart(start, end, overlap, maxChars);
      Windows(text, start, iterations, maxChars, overlap)
        == if end >= |text| || next >= |text| then here
           else here + Windows(text, next, iterations + 1, maxChars, overlap)
  {
  }

  /** A text within the default limit comes back whole, unstripped. */
  lemma ShortTextUnchanged(text: string)
    requires |text| <= DefaultMaxChars
    ensures Chunks(text, DefaultMaxChars, DefaultOverlap) == [text]
  {
  }
}
