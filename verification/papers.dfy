/** The document routes of the newer service as transitions of the stores:
    upload (extract, store the paper and its chunks, enqueue ingestion),
    details, statistics and delete. Each handler returns the stores after
    it, its reply and the store operations it made. */
module PaperRoutes {
  import opened Wrappers
  import opened Records
  import opened Validation
  import opened DocStore
  import opened Ingestion

  datatype Data =
    | Uploaded(paperId: string)
    | Removed(removedVectors: int, removedChunks: nat, removedPaper: bool)
    | Details(id: string, filename: string, title: Option<string>, sections: seq<SectionRun>,
              chunkCount: nat, status: Status, createdAt: int, indexedAt: Option<int>)
    | Stats(paperId: string, filename: string, vectorCount: nat, chunkCount: nat, indexedAt: Option<int>)

  datatype Reply = Ok(data: Data) | Error(status: int, code: string, message: string)

  datatype Step = Step(db: Db, reply: Reply, ops: seq<Op>)

  const NotFound := Error(404, "NOT_FOUND", "paper not found")

  // ---------------------------------------------------------------------
  // POST /upload

  /** The extract used in test mode in place of the extractor's answer. */
  function Synthetic(name: string): Extraction {
    Extraction(Some(name), [SectionRun("Abstract", 1, 1)],
               [Piece("Test chunk content", "Abstract", 1, 0), Piece("More content", "Introduction", 2, 1)])
  }

  /** What the call to the extractor comes back with: a reply whose status
      is not 2xx, a failure of the call itself or of reading its body as
      JSON, or the parsed extract. */
  datatype ExtractReply = NotOk | Unreadable | Parsed(extraction: Extraction)

  /** How `insertMany` of the chunk documents ends: every document written,
      or an error after the first `written` of them (an ordered insert stops
      at the first document it cannot write). */
  datatype ChunkWrite = AllWritten | StoppedAfter(written: nat)

  /** The outcomes of the upload's three writes: the paper document, its
      chunk documents and the ingestion job. */
  datatype UploadWrites = UploadWrites(paper: Result<()>, chunks: ChunkWrite, job: Result<()>)

  /** Whatever throws after the file check and before the reply. */
  const UploadFailed := Error(500, "INTERNAL", "Upload failed")

  /** The extract the upload works with: the synthetic one in test mode,
      otherwise the extractor's answer. */
  function ExtractOf(name: string, testMode: bool, extractor: ExtractReply): (r: ExtractReply)
    ensures testMode ==> r == Parsed(Synthetic(name))
    ensures !testMode ==> r == extractor
  {
    if testMode then Parsed(Synthetic(name)) else extractor
  }

  /** The chunk documents of a new paper: one per extracted piece, in order,
      under the paper's id. */
  function StoredChunks(paperId: string, pieces: seq<Piece>): (r: seq<Chunk>)
    ensures |r| == |pieces|
    ensures forall k | 0 <= k < |r| ::
      r[k] == Chunk(paperId, pieces[k].text, pieces[k].section, pieces[k].page, pieces[k].order)
  {
    seq(|pieces|, k requires 0 <= k < |pieces| =>
      Chunk(paperId, pieces[k].text, pieces[k].section, pieces[k].page, pieces[k].order))
  }

  function NewPaper(name: string, e: Extraction, now: int): Paper {
    Paper(name, e.title, e.sections, |e.pieces|, Extracted, now, None)
  }

  /** The upload handler. `file` is the uploaded file's original name, if a
      file was sent; `extractor` is what the extractor call gives, `w` how
      the writes end, `newId` the id the database gives the new paper and
      `now` the time. The database refuses an id it already holds. Writes
      that succeeded before one that throws are kept: nothing is rolled
      back. */
  function HandleUpload(db: Db, file: Option<string>, testMode: bool, extractor: ExtractReply,
                       w: UploadWrites, newId: string, now: int): (s: Step)
  {
    if file.None? then Step(db, Error(400, "BAD_REQUEST", "file is required"), [])
    else
      var ex := ExtractOf(file.value, testMode, extractor);
      if ex.NotOk? then Step(db, Error(502, "EMBEDDER_FAILED", "Extraction failed"), [])
      else if ex.Unreadable? then Step(db, UploadFailed, [])
      else if newId in db.papers || w.paper.Failure? then Step(db, UploadFailed, [InsertPaper(newId)])
      else
        var e := ex.extraction;
        var stored := StoredChunks(newId, e.pieces);
        var withPaper := db.(papers := db.papers[newId := NewPaper(file.value, e, now)]);
        if |e.pieces| > 0 && w.chunks.StoppedAfter? then
          var kept := if w.chunks.written < |stored| then w.chunks.written else |stored|;
          Step(withPaper.(chunks := db.chunks + stored[..kept]), UploadFailed,
               [InsertPaper(newId), InsertChunks(|e.pieces|)])
        else
          var withChunks := withPaper.(chunks := db.chunks + stored);
          var inserts := [InsertPaper(newId)] + (if |e.pieces| > 0 then [InsertChunks(|e.pieces|)] else []);
          if w.job.Failure? then Step(withChunks, UploadFailed, inserts + [Enqueue(newId)])
          else Step(withChunks.(queue := EnqueueIngest(db.queue, newId)), Ok(Uploaded(newId)), inserts + [Enqueue(newId)])
  }

  /** An upload without a file, whose extraction fails, or whose paper
      document cannot be written changes no store. A failed extractor call
      is a 502; an extractor that cannot be reached or answers something
      other than JSON, and a refused paper document, are a 500. */
  lemma UploadRejects(db: Db, file: Option<string>, testMode: bool, extractor: ExtractReply,
                      w: UploadWrites, newId: string, now: int)
    ensures file.None? ==> HandleUpload(db, file, testMode, extractor, w, newId, now)
                           == Step(db, Error(400, "BAD_REQUEST", "file is required"), [])
    ensures file.Some? && !testMode && extractor.NotOk?
            ==> HandleUpload(db, file, testMode, extractor, w, newId, now)
                == Step(db, Error(502, "EMBEDDER_FAILED", "Extraction failed"), [])
    ensures file.Some? && !testMode && extractor.Unreadable?
            ==> HandleUpload(db, file, testMode, extractor, w, newId, now) == Step(db, UploadFailed, [])
    ensures file.Some? && (testMode || extractor.Parsed?) && (newId in db.papers || w.paper.Failure?)
            ==> HandleUpload(db, file, testMode, extractor, w, newId, now) == Step(db, UploadFailed, [InsertPaper(newId)])
  {
  }

  /** A successful upload stores the paper as `extracted` with one chunk per
      extracted piece, stores those chunks under the new id, and enqueues
      its ingestion as the last operation; it succeeds only when every write
      did. */
  lemma UploadStores(db: Db, file: Option<string>, testMode: bool, extractor: ExtractReply,
                     w: UploadWrites, newId: string, now: int)
    requires HandleUpload(db, file, testMode, extractor, w, newId, now).reply.Ok?
    ensures var s := HandleUpload(db, file, testMode, extractor, w, newId, now);
      file.Some? && ExtractOf(file.value, testMode, extractor).Parsed? && newId !in db.papers
      && var e := ExtractOf(file.value, testMode, extractor).extraction;
      w.paper.Success? && w.job.Success? && (|e.pieces| > 0 ==> w.chunks.AllWritten?)
      && s.reply == Ok(Uploaded(newId))
      && s.db.papers == db.papers[newId := Paper(file.value, e.title, e.sections, |e.pieces|, Extracted, now, None)]
      && s.db.chunks == db.chunks + StoredChunks(newId, e.pieces)
      && s.db.points == db.points && s.db.collection == db.collection
      && s.db.queue == EnqueueIngest(db.queue, newId)
      && s.ops[0] == InsertPaper(newId) && s.ops[|s.ops| - 1] == Enqueue(newId)
      && (InsertChunks(|e.pieces|) in s.ops <==> |e.pieces| > 0)
  {
    var s := HandleUpload(db, file, testMode, extractor, w, newId, now);
    var e := ExtractOf(file.value, testMode, extractor).extraction;
    if |e.pieces| == 0 {
      assert db.chunks + StoredChunks(newId, e.pieces) == db.chunks;
    }
  }

  /** The chunks of the new paper are exactly the ones just stored. */
  lemma NewChunksOnly(db: Db, newId: string, added: seq<Chunk>)
    requires Valid(db) && newId !in db.papers
    requires forall k | 0 <= k < |added| :: added[k].paperId == newId
    ensures ChunksOf(db.chunks + added, newId) == added
  {
    NoChunksWithoutPaper(db, newId);
    ChunksOfConcat(db.chunks, added, newId);
    OwnChunks(added, newId);
  }

  /** The paper insert succeeded and a later write threw: the reply is a
      500 and what was written stays. If `insertMany` stopped part-way, the
      paper is stored with its full `chunk_count` but only the chunks
      written before the error, and no job is queued; if the job could not
      be queued, paper and chunks are stored in full. */
  lemma UploadPartial(db: Db, file: Option<string>, testMode: bool, extractor: ExtractReply,
                      w: UploadWrites, newId: string, now: int)
    requires file.Some? && ExtractOf(file.value, testMode, extractor).Parsed?
    requires newId !in db.papers && w.paper.Success?
    requires var e := ExtractOf(file.value, testMode, extractor).extraction;
      (|e.pieces| > 0 && w.chunks.StoppedAfter?) || w.job.Failure?
    ensures var s := HandleUpload(db, file, testMode, extractor, w, newId, now);
      var e := ExtractOf(file.value, testMode, extractor).extraction;
      var stored := StoredChunks(newId, e.pieces);
      s.reply == UploadFailed && s.ops[0] == InsertPaper(newId)
      && s.db.papers == db.papers[newId := Paper(file.value, e.title, e.sections, |e.pieces|, Extracted, now, None)]
      && s.db.points == db.points && s.db.collection == db.collection && s.db.queue == db.queue
      && (|e.pieces| > 0 && w.chunks.StoppedAfter? ==>
            s.db.chunks == db.chunks + stored[..if w.chunks.written < |stored| then w.chunks.written else |stored|]
            && Enqueue(newId) !in s.ops)
      && (!(|e.pieces| > 0 && w.chunks.StoppedAfter?) ==>
            s.db.chunks == db.chunks + stored && s.ops[|s.ops| - 1] == Enqueue(newId))
  {
  }

  /** The upload leaves the stores in a state that breaks validity, namely
      a paper whose `chunk_count` counts chunks that were never written. */
  predicate ShortChunkWrite(db: Db, file: Option<string>, testMode: bool, extractor: ExtractReply,
                            w: UploadWrites, newId: string)
  {
    file.Some? && ExtractOf(file.value, testMode, extractor).Parsed?
    && newId !in db.papers && w.paper.Success? && w.chunks.StoppedAfter?
    && w.chunks.written < |ExtractOf(file.value, testMode, extractor).extraction.pieces|
  }

  /** Every chunk an upload leaves behind belongs to a stored paper, and
      the stores stay valid, with the new paper's `chunk_count` the number
      of its stored chunks and no other paper's count changed, exactly
      unless `insertMany` stopped before writing every chunk. */
  lemma UploadKeepsValid(db: Db, file: Option<string>, testMode: bool, extractor: ExtractReply,
                         w: UploadWrites, newId: string, now: int)
    requires Valid(db)
    ensures var after := HandleUpload(db, file, testMode, extractor, w, newId, now).db;
      forall i | 0 <= i < |after.chunks| :: after.chunks[i].paperId in after.papers
    ensures Valid(HandleUpload(db, file, testMode, extractor, w, newId, now).db)
            <==> !ShortChunkWrite(db, file, testMode, extractor, w, newId)
  {
    if file.Some? && ExtractOf(file.value, testMode, extractor).Parsed? && newId !in db.papers && w.paper.Success? {
      UploadedKeepsValid(db, file, testMode, extractor, w, newId, now);
    } else {
      assert HandleUpload(db, file, testMode, extractor, w, newId, now).db == db;
    }
  }

  /** `UploadKeepsValid` once the paper document is written. */
  lemma UploadedKeepsValid(db: Db, file: Option<string>, testMode: bool, extractor: ExtractReply,
                           w: UploadWrites, newId: string, now: int)
    requires Valid(db)
    requires file.Some? && ExtractOf(file.value, testMode, extractor).Parsed? && newId !in db.papers && w.paper.Success?
    ensures var after := HandleUpload(db, file, testMode, extractor, w, newId, now).db;
      forall i | 0 <= i < |after.chunks| :: after.chunks[i].paperId in after.papers
    ensures Valid(HandleUpload(db, file, testMode, extractor, w, newId, now).db)
            <==> !ShortChunkWrite(db, file, testMode, extractor, w, newId)
  {
    var s := HandleUpload(db, file, testMode, extractor, w, newId, now);
    var e := ExtractOf(file.value, testMode, extractor).extraction;
    var paper := NewPaper(file.value, e, now);
    var stored := StoredChunks(newId, e.pieces);
    var added := stored[..if ShortChunkWrite(db, file, testMode, extractor, w, newId) then w.chunks.written else |stored|];
    UploadAdds(db, file, testMode, extractor, w, newId, now);
    assert forall k | 0 <= k < |added| :: added[k].paperId == newId by {
      forall k | 0 <= k < |added| ensures added[k].paperId == newId {
        assert added[k] == stored[k];
      }
    }
    AddPaperOwners(db, newId, paper, added);
    if ShortChunkWrite(db, file, testMode, extractor, w, newId) {
      NewChunksOnly(db, newId, added);
      assert s.db.papers[newId].chunkCount != |ChunksOf(s.db.chunks, newId)|;
    } else {
      AddPaperKeepsValid(db, newId, paper, added, s.db.collection, s.db.points, s.db.queue);
    }
  }

  /** Once the paper document is written, an upload adds the paper and
      its chunks, all of them unless `insertMany` stopped short. */
  lemma UploadAdds(db: Db, file: Option<string>, testMode: bool, extractor: ExtractReply,
                   w: UploadWrites, newId: string, now: int)
    requires file.Some? && ExtractOf(file.value, testMode, extractor).Parsed? && newId !in db.papers && w.paper.Success?
    ensures var e := ExtractOf(file.value, testMode, extractor).extraction;
      var stored := StoredChunks(newId, e.pieces);
      var s := HandleUpload(db, file, testMode, extractor, w, newId, now);
      s.db.papers == db.papers[newId := NewPaper(file.value, e, now)]
      && s.db.chunks == db.chunks + stored[..if ShortChunkWrite(db, file, testMode, extractor, w, newId) then w.chunks.written else |stored|]
  {
    var e := ExtractOf(file.value, testMode, extractor).extraction;
    assert StoredChunks(newId, e.pieces)[..|e.pieces|] == StoredChunks(newId, e.pieces);
  }

  // ---------------------------------------------------------------------
  // GET /:id and GET /:id/stats

  /** The details of a paper; `chunk_count` is counted from the chunk store. */
  function HandleGet(db: Db, raw: string): (s: Step)
    ensures s.db == db
  {
    match ParseObjectId(raw)
    case Failure(e) => Step(db, Error(400, "VALIDATION_ERROR", e), [])
    case Success(id) =>
      if id !in db.papers then Step(db, NotFound, [FindPaper(id)])
      else
        var p := db.papers[id];
        Step(db, Ok(Details(id, p.filename, p.title, p.sections, |ChunksOf(db.chunks, id)|, p.status, p.createdAt, p.indexedAt)),
             [FindPaper(id), CountChunks(id)])
  }

  /** The points of the vector collection that belong to a paper. */
  function VectorCount(points: map<int, Point>, id: string): nat {
    |set k | k in points && points[k].payload.paperId == id|
  }

  /** The statistics of a paper: its vectors and its stored chunks. */
  function HandleStats(db: Db, raw: string): (s: Step)
    ensures s.db == db
  {
    match ParseObjectId(raw)
    case Failure(e) => Step(db, Error(400, "VALIDATION_ERROR", e), [])
    case Success(id) =>
      if id !in db.papers then Step(db, NotFound, [FindPaper(id)])
      else
        var p := db.papers[id];
        Step(db, Ok(Stats(id, p.filename, VectorCount(db.points, id), |ChunksOf(db.chunks, id)|, p.indexedAt)),
             [FindPaper(id), CountVectors(id), CountChunks(id)])
  }

  /** A malformed id is a 400 and an unknown one a 404, for details,
      statistics and delete alike; none of them changes the stores. */
  lemma LookupErrors(db: Db, raw: string, w: DeleteWrites)
    ensures !IsObjectId(raw) ==>
      HandleGet(db, raw).reply == HandleStats(db, raw).reply == HandleDelete(db, raw, w).reply
      == Error(400, "VALIDATION_ERROR", "Invalid ObjectId format")
    ensures IsObjectId(raw) && raw !in db.papers ==>
      HandleGet(db, raw).reply == HandleStats(db, raw).reply == HandleDelete(db, raw, w).reply == NotFound
    ensures HandleGet(db, raw).reply.Error? ==> HandleDelete(db, raw, w).db == db
  {
  }

  /** After an upload the paper's details show it as `extracted`, with a
      `chunk_count` equal to the number of extracted pieces. */
  lemma UploadThenGet(db: Db, file: Option<string>, testMode: bool, extractor: ExtractReply,
                      w: UploadWrites, newId: string, now: int)
    requires Valid(db) && IsObjectId(newId)
    requires HandleUpload(db, file, testMode, extractor, w, newId, now).reply.Ok?
    ensures var after := HandleUpload(db, file, testMode, extractor, w, newId, now).db;
      var e := ExtractOf(file.value, testMode, extractor).extraction;
      var r := HandleGet(after, newId).reply;
      r.Ok? && r.data.id == newId && r.data.status == Extracted && r.data.chunkCount == |e.pieces|
      && r.data.filename == file.value && r.data.indexedAt.None?
  {
    UploadStores(db, file, testMode, extractor, w, newId, now);
    var e := ExtractOf(file.value, testMode, extractor).extraction;
    NewChunksOnly(db, newId, StoredChunks(newId, e.pieces));
  }

  // ---------------------------------------------------------------------
  // DELETE /:id

  /** The points of every other paper. */
  function RemovePoints(points: map<int, Point>, id: string): (r: map<int, Point>)
    ensures forall k | k in r :: k in points && r[k] == points[k] && points[k].payload.paperId != id
    ensures forall k | k in points && points[k].payload.paperId != id :: k in r
  {
    map k | k in points && points[k].payload.paperId != id :: points[k]
  }

  /** The outcomes of the delete's three writes: the vector deletion, with
      the count the vector store reports (which it does not count), the
      chunk deletion and the paper deletion. */
  datatype DeleteWrites = DeleteWrites(vectors: Result<int>, chunks: Result<()>, paper: Result<()>)

  /** The reply to a write that throws: the error's message, or a fixed
      text when the message is empty. */
  function DeleteFailed(message: string): (r: Reply)
    ensures r.Error? && r.status == 500 && r.code == "INTERNAL" && r.message != ""
    ensures message != "" ==> r.message == message
  {
    Error(500, "INTERNAL", if message == "" then "delete failed" else message)
  }

  /** The delete handler: the paper's vectors, then its chunks, then the
      paper. A write that throws ends the handler with a 500, and the
      writes before it stay done. */
  function HandleDelete(db: Db, raw: string, w: DeleteWrites): (s: Step)
  {
    match ParseObjectId(raw)
    case Failure(e) => Step(db, Error(400, "VALIDATION_ERROR", e), [])
    case Success(id) =>
      if id !in db.papers then Step(db, NotFound, [FindPaper(id)])
      else if w.vectors.Failure? then Step(db, DeleteFailed(w.vectors.error), [FindPaper(id), DeleteVectors(id)])
      else
        var noVectors := db.(points := RemovePoints(db.points, id));
        if w.chunks.Failure? then
          Step(noVectors, DeleteFailed(w.chunks.error), [FindPaper(id), DeleteVectors(id), DeleteChunks(id)])
        else
          var noChunks := noVectors.(chunks := RemoveChunks(db.chunks, id));
          var all := [FindPaper(id), DeleteVectors(id), DeleteChunks(id), DeletePaper(id)];
          if w.paper.Failure? then Step(noChunks, DeleteFailed(w.paper.error), all)
          else Step(noChunks.(papers := db.papers - {id}), Ok(Removed(w.vectors.value, |ChunksOf(db.chunks, id)|, true)), all)
  }

  /** A delete whose writes all succeed removes the vectors, then the
      chunks, then the paper; it reports the chunks removed and
      `removed_paper: true`; nothing of the paper is left and nothing of any
      other paper is touched. */
  lemma DeleteRemoves(db: Db, raw: string, w: DeleteWrites)
    requires IsObjectId(raw) && raw in db.papers
    requires w.vectors.Success? && w.chunks.Success? && w.paper.Success?
    ensures var s := HandleDelete(db, raw, w);
      s.ops == [FindPaper(raw), DeleteVectors(raw), DeleteChunks(raw), DeletePaper(raw)]
      && s.reply == Ok(Removed(w.vectors.value, |ChunksOf(db.chunks, raw)|, true))
      && raw !in s.db.papers && ChunksOf(s.db.chunks, raw) == []
      && (forall k | k in s.db.points :: s.db.points[k].payload.paperId != raw)
      && (forall id | id in db.papers && id != raw ::
            id in s.db.papers && s.db.papers[id] == db.papers[id]
            && ChunksOf(s.db.chunks, id) == ChunksOf(db.chunks, id))
      && (forall k | k in db.points && db.points[k].payload.paperId != raw :: k in s.db.points && s.db.points[k] == db.points[k])
  {
    var d := db.(points := RemovePoints(db.points, raw), chunks := RemoveChunks(db.chunks, raw), papers := db.papers - {raw});
    assert HandleDelete(db, raw, w)
        == Step(d, Ok(Removed(w.vectors.value, |ChunksOf(db.chunks, raw)|, true)),
                [FindPaper(raw), DeleteVectors(raw), DeleteChunks(raw), DeletePaper(raw)]);
    RemovalLeaves(db, raw);
  }

  /** The stores after a paper's vectors, chunks and document are removed. */
  lemma RemovalLeaves(db: Db, raw: string)
    ensures var d := db.(points := RemovePoints(db.points, raw), chunks := RemoveChunks(db.chunks, raw), papers := db.papers - {raw});
      raw !in d.papers && ChunksOf(d.chunks, raw) == []
      && (forall k | k in d.points :: d.points[k].payload.paperId != raw)
      && (forall id | id in db.papers && id != raw ::
            id in d.papers && d.papers[id] == db.papers[id]
            && ChunksOf(d.chunks, id) == ChunksOf(db.chunks, id))
      && (forall k | k in db.points && db.points[k].payload.paperId != raw :: k in d.points && d.points[k] == db.points[k])
  {
    RemoveLeavesNone(db.chunks, raw);
    forall id | id in db.papers && id != raw
      ensures ChunksOf(RemoveChunks(db.chunks, raw), id) == ChunksOf(db.chunks, id)
    {
      RemoveKeepsOthers(db.chunks, raw, id);
    }
  }

  /** A delete whose writes do not all succeed answers 500 with the first
      error, keeps the paper, and keeps exactly what the failed write and
      the ones after it would have removed: a failed vector deletion changes
      nothing, a failed chunk deletion leaves the chunks, and a failed paper
      deletion leaves the paper without its chunks. */
  lemma DeletePartial(db: Db, raw: string, w: DeleteWrites)
    requires IsObjectId(raw) && raw in db.papers
    requires w.vectors.Failure? || w.chunks.Failure? || w.paper.Failure?
    ensures var s := HandleDelete(db, raw, w);
      s.reply.Error? && s.reply.status == 500 && s.db.papers == db.papers && s.db.queue == db.queue
      && (w.vectors.Failure? ==> s == Step(db, DeleteFailed(w.vectors.error), [FindPaper(raw), DeleteVectors(raw)]))
      && (w.vectors.Success? ==> s.db.points == RemovePoints(db.points, raw))
      && (w.vectors.Success? && w.chunks.Failure? ==>
            s.reply == DeleteFailed(w.chunks.error) && s.db.chunks == db.chunks && DeletePaper(raw) !in s.ops)
      && (w.vectors.Success? && w.chunks.Success? ==>
            s.reply == DeleteFailed(w.paper.error) && s.db.chunks == RemoveChunks(db.chunks, raw)
            && s.ops[|s.ops| - 1] == DeletePaper(raw))
  {
  }

  /** The delete leaves a paper behind whose `chunk_count` no longer
      matches: the chunks were removed but the paper document was not. */
  predicate StaleAfterDelete(db: Db, raw: string, w: DeleteWrites) {
    IsObjectId(raw) && raw in db.papers && w.vectors.Success? && w.chunks.Success? && w.paper.Failure?
    && |ChunksOf(db.chunks, raw)| > 0
  }

  /** Deletes keep the stores valid exactly unless the paper document
      outlives the chunks it counts. */
  lemma DeleteKeepsValid(db: Db, raw: string, w: DeleteWrites)
    requires Valid(db)
    ensures Valid(HandleDelete(db, raw, w).db) <==> !StaleAfterDelete(db, raw, w)
  {
    if IsObjectId(raw) && raw in db.papers && w.vectors.Success? {
      var points := RemovePoints(db.points, raw);
      if w.chunks.Failure? {
        assert HandleDelete(db, raw, w).db == Db(db.papers, db.chunks, db.collection, points, db.queue);
      } else if w.paper.Failure? {
        RemoveChunksOnly(db, raw, db.collection, points, db.queue);
      } else {
        RemovePaperKeepsValid(db, raw, db.collection, points, db.queue);
      }
    }
  }

  /** Once deleted, a paper is not found. */
  lemma DeleteThenGet(db: Db, raw: string, w: DeleteWrites)
    requires HandleDelete(db, raw, w).reply.Ok?
    ensures HandleGet(HandleDelete(db, raw, w).db, raw).reply == NotFound
    ensures HandleStats(HandleDelete(db, raw, w).db, raw).reply == NotFound
  {
  }
}
