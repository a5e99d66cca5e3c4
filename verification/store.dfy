/** The stores the document lifecycle works on: the paper and chunk
    collections of the document database, the vector collection, and the
    ingestion queue. The routes and the ingestion worker are transitions of
    this state; every store operation they make is recorded, in order. */
module DocStore {
  import opened Wrappers
  import opened Records

  datatype Status = Extracted | Indexed

  /** A paper document; `title` is `metadata.title`. */
  datatype Paper = Paper(
    filename: string,
    title: Option<string>,
    sections: seq<SectionRun>,
    chunkCount: nat,
    status: Status,
    createdAt: int,
    indexedAt: Option<int>)

  /** A point of the vector collection. The vector is missing when the
      embedder returned fewer vectors than it was given texts. */
  datatype Point = Point(id: int, vector: Option<seq<real>>, payload: Payload)

  datatype Backoff = Exponential(delayMs: nat)

  /** A queued ingestion job and its retry options. */
  datatype Job = Job(name: string, paperId: string, attempts: nat, backoff: Backoff)

  /** `collection` is the vector size of `papers_chunks` once it exists. */
  datatype Db = Db(
    papers: map<string, Paper>,
    chunks: seq<Chunk>,
    collection: Option<int>,
    points: map<int, Point>,
    queue: seq<Job>)

  /** A store operation, in the order a handler or the worker makes them. */
  datatype Op =
    | FindPaper(id: string)
    | InsertPaper(id: string)
    | InsertChunks(count: nat)
    | Enqueue(paperId: string)
    | CountChunks(paperId: string)
    | CountVectors(paperId: string)
    | DeleteVectors(paperId: string)
    | DeleteChunks(paperId: string)
    | DeletePaper(id: string)
    | FindChunks(paperId: string)
    | Embed(texts: seq<string>)
    | GetCollection
    | CreateCollection(size: int, distance: string)
    | Upsert(ids: seq<int>)
    | MarkIndexed(id: string)

  /** The chunks of paper `id`, in store order. */
  function ChunksOf(chunks: seq<Chunk>, id: string): (r: seq<Chunk>)
    ensures |r| <= |chunks|
    ensures forall i | 0 <= i < |r| :: r[i].paperId == id && r[i] in chunks
    ensures forall c | c in chunks && c.paperId == id :: c in r
    ensures (forall c | c in chunks :: c.paperId != id) ==> r == []
  {
    if |chunks| == 0 then []
    else
      var last := chunks[|chunks| - 1];
      ChunksOf(chunks[..|chunks| - 1], id) + (if last.paperId == id then [last] else [])
  }

  /** The chunks of every other paper, in store order. */
  function RemoveChunks(chunks: seq<Chunk>, id: string): (r: seq<Chunk>)
    ensures |r| + |ChunksOf(chunks, id)| == |chunks|
    ensures forall c | c in r :: c.paperId != id && c in chunks
    ensures forall c | c in chunks && c.paperId != id :: c in r
  {
    if |chunks| == 0 then []
    else
      var init := chunks[..|chunks| - 1];
      var last := chunks[|chunks| - 1];
      assert chunks == init + [last];
      assert forall c | c in chunks && c != last :: c in init;
      RemoveChunks(init, id) + (if last.paperId != id then [last] else [])
  }

  lemma {:induction false} ChunksOfConcat(a: seq<Chunk>, b: seq<Chunk>, id: string)
    ensures ChunksOf(a + b, id) == ChunksOf(a, id) + ChunksOf(b, id)
    decreases |b|
  {
    if |b| > 0 {
      var b' := b[..|b| - 1];
      assert (a + b)[..|a + b| - 1] == a + b';
      ChunksOfConcat(a, b', id);
    } else {
      assert a + b == a;
    }
  }

  /** Removing one paper's chunks leaves the chunks of every other paper as
      they were. */
  lemma {:induction false} RemoveKeepsOthers(chunks: seq<Chunk>, id: string, other: string)
    requires other != id
    ensures ChunksOf(RemoveChunks(chunks, id), other) == ChunksOf(chunks, other)
    decreases |chunks|
  {
    if |chunks| > 0 {
      var init := chunks[..|chunks| - 1];
      var last := chunks[|chunks| - 1];
      RemoveKeepsOthers(init, id, other);
      ChunksOfConcat(RemoveChunks(init, id), if last.paperId != id then [last] else [], other);
    }
  }

  /** Removing a paper's chunks removes all of them. */
  lemma RemoveLeavesNone(chunks: seq<Chunk>, id: string)
    ensures ChunksOf(RemoveChunks(chunks, id), id) == []
  {
  }

  /** Every stored chunk belongs to a stored paper, and every paper's
      `chunk_count` is the number of its stored chunks. */
  predicate Valid(db: Db) {
    (forall i | 0 <= i < |db.chunks| :: db.chunks[i].paperId in db.papers)
    && (forall id | id in db.papers :: db.papers[id].chunkCount == |ChunksOf(db.chunks, id)|)
  }

  /** A paper with no stored paper document has no stored chunks. */
  lemma NoChunksWithoutPaper(db: Db, id: string)
    requires Valid(db) && id !in db.papers
    ensures ChunksOf(db.chunks, id) == []
  {
    forall c | c in db.chunks
      ensures c.paperId != id
    {
      var i :| 0 <= i < |db.chunks| && db.chunks[i] == c;
    }
  }

  /** Adding a new paper together with its own chunks, and a `chunk_count`
      that counts them, keeps the stores valid. */
  lemma AddPaperKeepsValid(db: Db, id: string, paper: Paper, added: seq<Chunk>,
                           collection: Option<int>, points: map<int, Point>, queue: seq<Job>)
    requires Valid(db) && id !in db.papers
    requires forall k | 0 <= k < |added| :: added[k].paperId == id
    requires paper.chunkCount == |added|
    ensures Valid(Db(db.papers[id := paper], db.chunks + added, collection, points, queue))
  {
    AddPaperCounts(db, id, paper, added);
    AddPaperOwners(db, id, paper, added);
  }

  lemma AddPaperCounts(db: Db, id: string, paper: Paper, added: seq<Chunk>)
    requires Valid(db) && id !in db.papers
    requires forall k | 0 <= k < |added| :: added[k].paperId == id
    requires paper.chunkCount == |added|
    ensures var papers := db.papers[id := paper];
      forall other | other in papers :: papers[other].chunkCount == |ChunksOf(db.chunks + added, other)|
  {
    var papers := db.papers[id := paper];
    NoChunksWithoutPaper(db, id);
    ChunksOfConcat(db.chunks, added, id);
    OwnChunks(added, id);
    forall other | other in papers && other != id
      ensures papers[other].chunkCount == |ChunksOf(db.chunks + added, other)|
    {
      ChunksOfConcat(db.chunks, added, other);
      ForeignChunks(added, other);
    }
  }

  lemma AddPaperOwners(db: Db, id: string, paper: Paper, added: seq<Chunk>)
    requires Valid(db)
    requires forall k | 0 <= k < |added| :: added[k].paperId == id
    ensures var chunks := db.chunks + added;
      forall i | 0 <= i < |chunks| :: chunks[i].paperId in db.papers[id := paper]
  {
    var chunks := db.chunks + added;
    forall i | 0 <= i < |chunks|
      ensures chunks[i].paperId in db.papers[id := paper]
    {
      if i >= |db.chunks| {
        assert chunks[i] == added[i - |db.chunks|];
      } else {
        assert chunks[i] == db.chunks[i];
      }
    }
  }

  lemma {:induction false} OwnChunks(chunks: seq<Chunk>, id: string)
    requires forall k | 0 <= k < |chunks| :: chunks[k].paperId == id
    ensures ChunksOf(chunks, id) == chunks
  {
    if |chunks| > 0 {
      var init := chunks[..|chunks| - 1];
      var last := chunks[|chunks| - 1];
      assert forall k | 0 <= k < |init| :: init[k].paperId == id by {
        forall k | 0 <= k < |init| ensures init[k].paperId == id {
          assert init[k] == chunks[k];
        }
      }
      OwnChunks(init, id);
      assert chunks == init + [last];
      assert ChunksOf(chunks, id) == ChunksOf(init, id) + [last];
    }
  }

  lemma ForeignChunks(chunks: seq<Chunk>, id: string)
    requires forall k | 0 <= k < |chunks| :: chunks[k].paperId != id
    ensures ChunksOf(chunks, id) == []
  {
    forall c | c in chunks
      ensures c.paperId != id
    {
      var k :| 0 <= k < |chunks| && chunks[k] == c;
    }
  }

  /** Removing a paper's chunks but not the paper keeps the stores valid
      exactly when the paper counted no chunks: otherwise its `chunk_count`
      is left stale. */
  lemma RemoveChunksOnly(db: Db, id: string, collection: Option<int>, points: map<int, Point>, queue: seq<Job>)
    requires Valid(db) && id in db.papers
    ensures Valid(Db(db.papers, RemoveChunks(db.chunks, id), collection, points, queue)) <==> db.papers[id].chunkCount == 0
  {
    var chunks := RemoveChunks(db.chunks, id);
    RemoveLeavesNone(db.chunks, id);
    RemoveKeepsCounts(db, id);
    RemoveKeepsOwners(db, id);
  }

  lemma RemoveKeepsCounts(db: Db, id: string)
    requires Valid(db)
    ensures forall other | other in db.papers && other != id ::
      db.papers[other].chunkCount == |ChunksOf(RemoveChunks(db.chunks, id), other)|
  {
    forall other | other in db.papers && other != id
      ensures db.papers[other].chunkCount == |ChunksOf(RemoveChunks(db.chunks, id), other)|
    {
      RemoveKeepsOthers(db.chunks, id, other);
    }
  }

  lemma RemoveKeepsOwners(db: Db, id: string)
    requires Valid(db)
    ensures var chunks := RemoveChunks(db.chunks, id);
      forall i | 0 <= i < |chunks| :: chunks[i].paperId in db.papers
  {
    var chunks := RemoveChunks(db.chunks, id);
    forall i | 0 <= i < |chunks|
      ensures chunks[i].paperId in db.papers
    {
      var c := chunks[i];
      assert c in chunks;
      var j :| 0 <= j < |db.chunks| && db.chunks[j] == c;
    }
  }

  /** Removing a paper together with its chunks keeps the stores valid. */
  lemma RemovePaperKeepsValid(db: Db, id: string, collection: Option<int>, points: map<int, Point>, queue: seq<Job>)
    requires Valid(db)
    ensures Valid(Db(db.papers - {id}, RemoveChunks(db.chunks, id), collection, points, queue))
  {
    var papers := db.papers - {id};
    var chunks := RemoveChunks(db.chunks, id);
    forall other | other in papers
      ensures papers[other].chunkCount == |ChunksOf(chunks, other)|
    {
      RemoveKeepsOthers(db.chunks, id, other);
    }
    forall i | 0 <= i < |chunks|
      ensures chunks[i].paperId in papers
    {
      var c := chunks[i];
      assert c in chunks;
      var j :| 0 <= j < |db.chunks| && db.chunks[j] == c;
    }
  }
}
