/** Records shared by the retrieval, context and ingestion components: the
    payload stored with every vector point, a search hit, and a stored chunk. */
module Records {
  import opened Wrappers

  /** The payload of a point in the `papers_chunks` vector collection.
      Every field but the paper id is optional in the stored JSON. */
  datatype Payload = Payload(
    paperId: string,
    paperTitle: Option<string>,
    section: Option<string>,
    page: Option<int>,
    chunkIndex: Option<int>,
    model: Option<string>,
    vectorDim: Option<int>,
    createdAt: Option<string>)

  /** A scored hit returned by a vector search. */
  datatype Hit = Hit(id: int, score: real, payload: Payload)

  /** A chunk document: the text of one chunk of a paper, at position `order`. */
  datatype Chunk = Chunk(paperId: string, text: string, section: string, page: int, order: int)

  /** A chunk as the extractor returns it, before it is stored under a paper. */
  datatype Piece = Piece(text: string, section: string, page: int, order: int)

  /** A run of consecutive chunks with the same section label, and the pages
      it spans. */
  datatype SectionRun = SectionRun(name: string, startPage: int, endPage: int)

  /** What the extractor returns for one PDF: the title in its metadata, the
      section runs and the chunks. */
  datatype Extraction = Extraction(title: Option<string>, sections: seq<SectionRun>, pieces: seq<Piece>)

  function Score(h: Hit): real {
    h.score
  }

  /** JavaScript truthiness of an optional string: present and non-empty. */
  predicate Truthy(s: Option<string>) {
    s.Some? && s.value != ""
  }

  /** `s || ''` for an optional string. */
  function OrEmpty(s: Option<string>): (r: string)
    ensures Truthy(s) <==> r != ""
    ensures Truthy(s) ==> r == s.value
  {
    if s.Some? then s.value else ""
  }
}
