/** The ingestion queue of the older service: how a job is enqueued, and one
    attempt of the worker as a transition of the stores. The attempt loads
    the paper and its chunks, embeds the texts in batches, makes sure the
    vector collection exists, writes one point per chunk and marks the paper
    indexed. A failed attempt changes nothing it has not already written. */
module Ingestion {
  import opened Wrappers
  import opened Records
  import opened Sorting
  import opened DocStore

  const BatchSize := 64
  const Attempts := 3
  const BackoffDelayMs := 1000
  const EmbeddingModel := "BAAI/bge-small-en-v1.5"

  // ---------------------------------------------------------------------
  // Enqueueing

  /** `enqueueIngest`: one `ingest` job for the paper, tried at most three
      times with exponential back-off from one second. */
  function EnqueueIngest(queue: seq<Job>, paperId: string): (r: seq<Job>)
    ensures |r| == |queue| + 1 && r[..|queue|] == queue
    ensures r[|queue|].paperId == paperId && r[|queue|].name == "ingest"
    ensures r[|queue|].attempts == 3 && r[|queue|].backoff == Exponential(1000)
  {
    queue + [Job("ingest", paperId, Attempts, Exponential(BackoffDelayMs))]
  }

  // ---------------------------------------------------------------------
  // Batching the texts

  function Flatten<T>(parts: seq<seq<T>>): seq<T> {
    if |parts| == 0 then [] else parts[0] + Flatten(parts[1..])
  }

  /** The slices `texts[i..i+64]` for `i = 0, 64, 128, …`. */
  function Batches(texts: seq<string>): (r: seq<seq<string>>)
    ensures Flatten(r) == texts
    ensures forall k | 0 <= k < |r| :: 0 < |r[k]| <= BatchSize
    ensures forall k | 0 <= k < |r| - 1 :: |r[k]| == BatchSize
    decreases |texts|
  {
    if |texts| == 0 then []
    else if |texts| <= BatchSize then [texts]
    else
      var rest := Batches(texts[BatchSize..]);
      assert texts == texts[..BatchSize] + texts[BatchSize..];
      [texts[..BatchSize]] + rest
  }

  /** The embedder's answer for one batch: the vector size and the vectors. */
  datatype Embedding = Embedding(dim: int, vectors: seq<seq<real>>)

  /** The vectors of every batch the embedder answered, in batch order. */
  function Vectors(batches: seq<seq<string>>, embed: seq<string> -> Result<Embedding>): seq<seq<real>> {
    if |batches| == 0 then []
    else
      var head := if embed(batches[0]).Success? then embed(batches[0]).value.vectors else [];
      head + Vectors(batches[1..], embed)
  }

  /** Embeds the batches in order, starting from the vectors and size seen
      so far; the first failing batch ends the attempt with its error. The
      second component is the embedder calls made. */
  function EmbedFrom(batches: seq<seq<string>>, embed: seq<string> -> Result<Embedding>,
                     dim: int, vectors: seq<seq<real>>): (r: (Result<Embedding>, seq<Op>))
    ensures |r.1| <= |batches|
    ensures forall k | 0 <= k < |r.1| :: r.1[k] == Embed(batches[k])
    ensures r.0.Success? ==> |r.1| == |batches| && forall k | 0 <= k < |batches| :: embed(batches[k]).Success?
    ensures r.0.Success? ==> r.0.value.vectors == vectors + Vectors(batches, embed)
    ensures r.0.Success? && |batches| == 0 ==> r.0.value.dim == dim
    ensures r.0.Success? && |batches| > 0 ==> r.0.value.dim == embed(batches[|batches| - 1]).value.dim
    ensures r.0.Failure? ==> 0 < |r.1| && embed(batches[|r.1| - 1]).Failure?
                             && r.0.error == embed(batches[|r.1| - 1]).error
                             && forall k | 0 <= k < |r.1| - 1 :: embed(batches[k]).Success?
  {
    if |batches| == 0 then (Success(Embedding(dim, vectors)), [])
    else
      match embed(batches[0])
      case Failure(e) => (Failure(e), [Embed(batches[0])])
      case Success(resp) =>
        var rest := EmbedFrom(batches[1..], embed, resp.dim, vectors + resp.vectors);
        (rest.0, [Embed(batches[0])] + rest.1)
  }

  /** The worker's batching loop: slices of 64 texts, each sent to the
      embedder in turn; the vectors are appended and the size is the last
      batch's. It computes what `EmbedFrom` over `Batches` describes. */
  method EmbedAll(texts: seq<string>, embed: seq<string> -> Result<Embedding>)
    returns (r: Result<Embedding>, calls: seq<Op>)
    ensures r == EmbedFrom(Batches(texts), embed, 0, []).0
    ensures calls == EmbedFrom(Batches(texts), embed, 0, []).1
  {
    ghost var total := EmbedFrom(Batches(texts), embed, 0, []);
    var i := 0;
    var dim := 0;
    var vectors: seq<seq<real>> := [];
    calls := [];
    assert texts[i..] == texts;
    while i < |texts|
      invariant 0 <= i <= |texts|
      invariant total.0 == EmbedFrom(Batches(texts[i..]), embed, dim, vectors).0
      invariant total.1 == calls + EmbedFrom(Batches(texts[i..]), embed, dim, vectors).1
      decreases |texts| - i
    {
      var end := if i + BatchSize <= |texts| then i + BatchSize else |texts|;
      var slice := texts[i..end];
      BatchesStep(texts, i, end);
      EmbedFromCons(slice, Batches(texts[end..]), embed, dim, vectors);
      ghost var before := calls;
      calls := calls + [Embed(slice)];
      var resp := embed(slice);
      if resp.Failure? {
        return Failure(resp.error), calls;
      }
      ghost var tail := EmbedFrom(Batches(texts[end..]), embed, resp.value.dim, vectors + resp.value.vectors);
      assert total.1 == before + ([Embed(slice)] + tail.1);
      ConcatAssoc(before, [Embed(slice)], tail.1);
      dim := resp.value.dim;
      vectors := vectors + resp.value.vectors;
      i := end;
    }
    assert texts[i..] == [];
    r := Success(Embedding(dim, vectors));
  }

  lemma ConcatAssoc<T>(a: seq<T>, b: seq<T>, c: seq<T>)
    ensures a + (b + c) == (a + b) + c
  {
  }

  /** Embedding a first batch and then the rest. */
  lemma EmbedFromCons(b: seq<string>, rest: seq<seq<string>>, embed: seq<string> -> Result<Embedding>,
                      dim: int, vectors: seq<seq<real>>)
    ensures embed(b).Failure? ==> EmbedFrom([b] + rest, embed, dim, vectors) == (Failure(embed(b).error), [Embed(b)])
    ensures embed(b).Success? ==>
      var tail := EmbedFrom(rest, embed, embed(b).value.dim, vectors + embed(b).value.vectors);
      EmbedFrom([b] + rest, embed, dim, vectors) == (tail.0, [Embed(b)] + tail.1)
  {
    assert ([b] + rest)[0] == b;
    assert ([b] + rest)[1..] == rest;
  }

  /** The batches from position `i` are the slice at `i` and then the batches
      after it. */
  lemma BatchesStep(texts: seq<string>, i: nat, end: nat)
    requires i < |texts| && end == (if i + BatchSize <= |texts| then i + BatchSize else |texts|)
    ensures Batches(texts[i..]) == [texts[i..end]] + Batches(texts[end..])
  {
    var t := texts[i..];
    if |t| > BatchSize {
      assert t[BatchSize..] == texts[end..];
      assert t[..BatchSize] == texts[i..end];
    } else {
      assert texts[end..] == [];
      assert t == texts[i..end];
    }
  }

  /** When the embedder returns one vector per text, there is one vector per
      chunk, in text order. */
  lemma {:induction false} VectorsAligned(batches: seq<seq<string>>, embed: seq<string> -> Result<Embedding>)
    requires forall k | 0 <= k < |batches| ::
      embed(batches[k]).Success? && |embed(batches[k]).value.vectors| == |batches[k]|
    ensures |Vectors(batches, embed)| == |Flatten(batches)|
  {
    if |batches| > 0 {
      VectorsAligned(batches[1..], embed);
    }
  }
  // ---------------------------------------------------------------------
  // One attempt

  /** The chunks in ascending `order`; chunks with the same order keep
      their store order. */
  function InOrder(chunks: seq<Chunk>): (r: seq<Chunk>)
    ensures multiset(r) == multiset(chunks)
  {
    Sort(chunks, (c: Chunk) => -(c.order as real))
  }

  /** `paper.metadata.title || paper.filename` */
  function TitleOf(p: Paper): (t: string)
    ensures Truthy(p.title) ==> t == p.title.value
    ensures !Truthy(p.title) ==> t == p.filename
  {
    if Truthy(p.title) then p.title.value else p.filename
  }

  /** The points of one attempt: chunk `k` gets id `baseId + k`, the k-th
      vector, and a payload naming its paper, section, page and order, and
      carrying the time `stampAt(k)` at which that payload was built. */
  function PointsOf(paperId: string, title: string, chunks: seq<Chunk>, emb: Embedding,
                    baseId: int, stampAt: nat -> string): (r: seq<Point>)
    ensures |r| == |chunks|
    ensures forall k | 0 <= k < |r| :: r[k].id == baseId + k
    ensures forall k | 0 <= k < |r| ::
      r[k].payload == Payload(paperId, Some(title), Some(chunks[k].section), Some(chunks[k].page),
                              Some(chunks[k].order), Some(EmbeddingModel), Some(emb.dim), Some(stampAt(k)))
    ensures forall k | 0 <= k < |r| :: r[k].vector == if k < |emb.vectors| then Some(emb.vectors[k]) else None
  {
    seq(|chunks|, k requires 0 <= k < |chunks| =>
      Point(baseId + k, if k < |emb.vectors| then Some(emb.vectors[k]) else None,
            Payload(paperId, Some(title), Some(chunks[k].section), Some(chunks[k].page),
                    Some(chunks[k].order), Some(EmbeddingModel), Some(emb.dim), Some(stampAt(k)))))
  }

  function IdsOf(points: seq<Point>): (r: seq<int>)
    ensures |r| == |points| && forall k | 0 <= k < |r| :: r[k] == points[k].id
  {
    seq(|points|, k requires 0 <= k < |points| => points[k].id)
  }

  /** Writes the points one after another; a point replaces the one with
      its id. */
  function UpsertAll(m: map<int, Point>, points: seq<Point>): (r: map<int, Point>)
    ensures forall id | id in m && id !in IdsOf(points) :: id in r && r[id] == m[id]
    decreases |points|
  {
    if |points| == 0 then m
    else
      assert IdsOf(points) == [points[0].id] + IdsOf(points[1..]);
      UpsertAll(m[points[0].id := points[0]], points[1..])
  }

  /** Among points with distinct ids, every point is stored as written. */
  lemma {:induction false} UpsertAllStores(m: map<int, Point>, points: seq<Point>, k: nat)
    requires k < |points|
    requires forall i, j | 0 <= i < j < |points| :: points[i].id != points[j].id
    ensures var r := UpsertAll(m, points); points[k].id in r && r[points[k].id] == points[k]
    decreases |points|
  {
    var tail := points[1..];
    var m' := m[points[0].id := points[0]];
    if k == 0 {
      assert points[0].id !in IdsOf(tail) by {
        forall j | 0 <= j < |tail|
          ensures IdsOf(tail)[j] != points[0].id
        {
          assert tail[j] == points[j + 1];
        }
      }
    } else {
      UpsertAllStores(m', tail, k - 1);
    }
  }

  /** The texts of the chunks, in the same order. */
  function Texts(chunks: seq<Chunk>): (r: seq<string>)
    ensures |r| == |chunks| && forall k | 0 <= k < |r| :: r[k] == chunks[k].text
  {
    seq(|chunks|, k requires 0 <= k < |chunks| => chunks[k].text)
  }

  /** The chunks an attempt indexes: those of the paper, by ascending order. */
  function Ordered(db: Db, paperId: string): seq<Chunk> {
    InOrder(ChunksOf(db.chunks, paperId))
  }

  /** What the world outside the worker does during one attempt: the
      embedder's answer for each batch; how the collection creation, the
      upsert and the status update end; and three clock readings, which
      need not agree: `Date.now()` as the base of the point ids, the time
      stamped into the payload of point `k`, and the time of the status
      update. */
  datatype World = World(
    embed: seq<string> -> Result<Embedding>,
    create: Result<()>,
    upsert: Result<()>,
    mark: Result<()>,
    baseId: int,
    stampAt: nat -> string,
    indexedAt: int)

  /** The outcome of one attempt: the stores after it, the error that
      failed it if any, and the operations made, in order. Writes made
      before the error stay made; the queue retries a failed job. */
  datatype Attempted = Attempted(after: Db, failure: Option<string>, ops: seq<Op>)

  /** The embedder's answer for all of the paper's chunks. */
  function Embedded(db: Db, paperId: string, w: World): Result<Embedding> {
    EmbedFrom(Batches(Texts(Ordered(db, paperId))), w.embed, 0, []).0
  }

  /** The stores once the collection exists: a missing one is created with
      the size of the vectors. */
  function Collected(db: Db, dim: int): (r: Db)
    ensures r.collection.Some? && (db.collection.Some? ==> r.collection == db.collection)
    ensures db.collection.None? ==> r.collection == Some(dim)
    ensures r.papers == db.papers && r.chunks == db.chunks && r.points == db.points && r.queue == db.queue
  {
    if db.collection.None? then db.(collection := Some(dim)) else db
  }

  /** The stores after the collection check and the upsert of an attempt's
      points, before the status update. */
  function Written(db: Db, paperId: string, chunks: seq<Chunk>, emb: Embedding, baseId: int, stampAt: nat -> string): Db
    requires paperId in db.papers
  {
    Collected(db, emb.dim).(points := UpsertAll(db.points, PointsOf(paperId, TitleOf(db.papers[paperId]), chunks, emb, baseId, stampAt)))
  }

  /** The stores with the paper marked `indexed` at time `at`. */
  function Marked(db: Db, paperId: string, at: int): (r: Db)
    requires paperId in db.papers
    ensures r.papers.Keys == db.papers.Keys
    ensures r.papers[paperId] == db.papers[paperId].(status := Indexed, indexedAt := Some(at))
    ensures forall id | id in db.papers && id != paperId :: r.papers[id] == db.papers[id]
    ensures r.chunks == db.chunks && r.points == db.points && r.collection == db.collection && r.queue == db.queue
  {
    db.(papers := db.papers[paperId := db.papers[paperId].(status := Indexed, indexedAt := Some(at))])
  }

  /** The collection check: `getCollection`, and `createCollection` with the
      observed size and cosine distance only when the collection is missing. */
  function EnsureCollection(collection: Option<int>, dim: int): seq<Op> {
    if collection.None? then [GetCollection, CreateCollection(dim, "Cosine")] else [GetCollection]
  }

  /** The attempt gets as far as writing its points: the paper and its
      chunks were found, every batch was embedded, the collection exists or
      was created, and the upsert succeeded. */
  predicate PointsWritten(db: Db, paperId: string, w: World) {
    paperId in db.papers && |Ordered(db, paperId)| > 0 && Embedded(db, paperId, w).Success?
    && (db.collection.Some? || w.create.Success?) && w.upsert.Success?
  }

  /** One attempt of the worker for job `paperId`. The lookups come first,
      then the embedder calls, the collection check, the upsert of one
      point per chunk and last the status update; the first step that fails
      ends the attempt with its error. */
  function Attempt(db: Db, paperId: string, w: World): (r: Attempted)
  {
    if paperId !in db.papers then Attempted(db, Some("paper not found"), [FindPaper(paperId)])
    else
      var chunks := Ordered(db, paperId);
      var found := [FindPaper(paperId), FindChunks(paperId)];
      if |chunks| == 0 then Attempted(db, Some("no chunks to index"), found)
      else
        var e := EmbedFrom(Batches(Texts(chunks)), w.embed, 0, []);
        if e.0.Failure? then Attempted(db, Some(e.0.error), found + e.1)
        else Store(db, paperId, chunks, e.0.value, found + e.1, w)
  }

  /** The writes of an attempt, once `before` (the lookups and embedder
      calls) produced the vectors: the collection check, the upsert and the
      status update. */
  function Store(db: Db, paperId: string, chunks: seq<Chunk>, emb: Embedding, before: seq<Op>, w: World): (r: Attempted)
    requires paperId in db.papers
  {
    var checked := before + EnsureCollection(db.collection, emb.dim);
    if db.collection.None? && w.create.Failure? then Attempted(db, Some(w.create.error), checked)
    else
      var upsert := checked + [Upsert(IdsOf(PointsOf(paperId, TitleOf(db.papers[paperId]), chunks, emb, w.baseId, w.stampAt)))];
      if w.upsert.Failure? then Attempted(Collected(db, emb.dim), Some(w.upsert.error), upsert)
      else
        var written := Written(db, paperId, chunks, emb, w.baseId, w.stampAt);
        if w.mark.Failure? then Attempted(written, Some(w.mark.error), upsert + [MarkIndexed(paperId)])
        else Attempted(Marked(written, paperId, w.indexedAt), None, upsert + [MarkIndexed(paperId)])
  }

  // ---------------------------------------------------------------------
  // Properties of an attempt

  /** A missing paper, or a paper without chunks, fails the attempt before
      anything is embedded or written. */
  lemma AttemptFailsEarly(db: Db, paperId: string, w: World)
    ensures paperId !in db.papers ==> Attempt(db, paperId, w) == Attempted(db, Some("paper not found"), [FindPaper(paperId)])
    ensures paperId in db.papers && ChunksOf(db.chunks, paperId) == []
            ==> Attempt(db, paperId, w) == Attempted(db, Some("no chunks to index"), [FindPaper(paperId), FindChunks(paperId)])
  {
    if paperId in db.papers && ChunksOf(db.chunks, paperId) == [] {
      assert |Ordered(db, paperId)| == 0 by {
        assert multiset(Ordered(db, paperId)) == multiset(ChunksOf(db.chunks, paperId));
      }
    }
  }

  /** An embedder failure fails the attempt with the embedder's error, after
      the batches before it were embedded, and nothing is written. */
  lemma AttemptEmbedFailure(db: Db, paperId: string, w: World)
    requires paperId in db.papers && |Ordered(db, paperId)| > 0
    requires Embedded(db, paperId, w).Failure?
    ensures var r := Attempt(db, paperId, w);
      var e := EmbedFrom(Batches(Texts(Ordered(db, paperId))), w.embed, 0, []);
      r == Attempted(db, Some(e.0.error), [FindPaper(paperId), FindChunks(paperId)] + e.1)
      && forall i | 0 <= i < |r.ops| :: !r.ops[i].Upsert? && !r.ops[i].MarkIndexed? && !r.ops[i].CreateCollection?
  {
  }

  /** A write that fails after the embedding ends the attempt with its
      error and keeps what was written before it: a failed collection
      creation writes nothing, a failed upsert leaves only the created
      collection, and a failed status update leaves the points written but
      the paper as it was. */
  lemma AttemptWriteFailure(db: Db, paperId: string, w: World)
    requires paperId in db.papers && |Ordered(db, paperId)| > 0
    requires Embedded(db, paperId, w).Success?
    ensures var r := Attempt(db, paperId, w);
      var emb := Embedded(db, paperId, w).value;
      (db.collection.None? && w.create.Failure? ==>
         r.after == db && r.failure == Some(w.create.error)
         && r.ops[|r.ops| - 1] == CreateCollection(emb.dim, "Cosine"))
      && ((db.collection.Some? || w.create.Success?) && w.upsert.Failure? ==>
         r.after == Collected(db, emb.dim) && r.failure == Some(w.upsert.error) && r.ops[|r.ops| - 1].Upsert?)
      && (PointsWritten(db, paperId, w) && w.mark.Failure? ==>
         r.after == Written(db, paperId, Ordered(db, paperId), emb, w.baseId, w.stampAt)
         && r.after.papers == db.papers
         && r.failure == Some(w.mark.error) && r.ops[|r.ops| - 1] == MarkIndexed(paperId))
  {
  }

  /** Whatever happens, an attempt changes no chunk and no queued job and
      adds or removes no paper; a failed attempt changes no paper at all, so
      the paper stays `extracted`; and points change only once the upsert
      succeeded. */
  lemma AttemptLeavesRest(db: Db, paperId: string, w: World)
    ensures var r := Attempt(db, paperId, w);
      r.after.chunks == db.chunks && r.after.queue == db.queue && r.after.papers.Keys == db.papers.Keys
      && (r.failure.Some? ==> r.after.papers == db.papers)
      && (!PointsWritten(db, paperId, w) ==> r.after.points == db.points)
      && (forall id | id in db.papers :: r.after.papers[id].chunkCount == db.papers[id].chunkCount)
  {
    var r := Attempt(db, paperId, w);
    if PointsWritten(db, paperId, w) {
      AttemptResult(db, paperId, w);
      var written := Written(db, paperId, Ordered(db, paperId), Embedded(db, paperId, w).value, w.baseId, w.stampAt);
      assert written.chunks == db.chunks && written.queue == db.queue && written.papers == db.papers;
    } else if paperId in db.papers && |Ordered(db, paperId)| > 0 && Embedded(db, paperId, w).Success? {
      var dim := Embedded(db, paperId, w).value.dim;
      assert r.after == db || r.after == Collected(db, dim);
    }
  }

  /** The chunks are indexed in ascending `order`. */
  lemma OrderedAscending(db: Db, paperId: string)
    ensures var cs := Ordered(db, paperId); forall i, j | 0 <= i < j < |cs| :: cs[i].order <= cs[j].order
  {
    var cs := ChunksOf(db.chunks, paperId);
    SortSorted(cs, (c: Chunk) => -(c.order as real));
  }

  /** An attempt succeeds exactly when its points were written and the
      status update succeeded; once the points are written, the stores
      after it are those with the points written, and marked indexed if the
      update succeeded. */
  lemma AttemptResult(db: Db, paperId: string, w: World)
    ensures Attempt(db, paperId, w).failure.None? <==> PointsWritten(db, paperId, w) && w.mark.Success?
    ensures PointsWritten(db, paperId, w) ==>
      var written := Written(db, paperId, Ordered(db, paperId), Embedded(db, paperId, w).value, w.baseId, w.stampAt);
      Attempt(db, paperId, w).after == if w.mark.Success? then Marked(written, paperId, w.indexedAt) else written
  {
  }

  /** A successful attempt marks the paper indexed at the time of the
      status update; no other paper and no chunk changes, and a missing
      collection is created with the size of the embeddings. */
  lemma AttemptSucceeds(db: Db, paperId: string, w: World)
    requires Attempt(db, paperId, w).failure.None?
    ensures var after := Attempt(db, paperId, w).after;
      paperId in db.papers && paperId in after.papers
      && after.papers[paperId] == db.papers[paperId].(status := Indexed, indexedAt := Some(w.indexedAt))
      && after.papers.Keys == db.papers.Keys
      && (forall id | id in db.papers && id != paperId :: after.papers[id] == db.papers[id])
      && after.chunks == db.chunks && after.queue == db.queue
      && after.collection.Some?
      && (db.collection.Some? ==> after.collection == db.collection)
      && (db.collection.None? ==> after.collection == Some(Embedded(db, paperId, w).value.dim))
  {
    AttemptResult(db, paperId, w);
  }

  /** The operations of a successful attempt: the lookups, the embedder
      calls, the collection check, the upsert, and last the status update. */
  lemma AttemptOps(db: Db, paperId: string, w: World)
    requires Attempt(db, paperId, w).failure.None?
    ensures paperId in db.papers && Embedded(db, paperId, w).Success? && Attempt(db, paperId, w).after.collection.Some?
    ensures var e := EmbedFrom(Batches(Texts(Ordered(db, paperId))), w.embed, 0, []);
      var after := Attempt(db, paperId, w).after;
      Attempt(db, paperId, w).ops
      == [FindPaper(paperId), FindChunks(paperId)] + e.1 + EnsureCollection(db.collection, after.collection.value)
         + [Upsert(IdsOf(PointsOf(paperId, TitleOf(db.papers[paperId]), Ordered(db, paperId), e.0.value, w.baseId, w.stampAt))),
            MarkIndexed(paperId)]
  {
    AttemptResult(db, paperId, w);
  }

  /** The status update comes last, right after the points are written, and
      the collection is created exactly when it was missing. */
  lemma AttemptOrder(db: Db, paperId: string, w: World)
    requires Attempt(db, paperId, w).failure.None?
    ensures var ops := Attempt(db, paperId, w).ops;
      var after := Attempt(db, paperId, w).after;
      |ops| >= 2 && ops[|ops| - 1] == MarkIndexed(paperId) && ops[|ops| - 2].Upsert?
      && (db.collection.None? <==> CreateCollection(after.collection.value, "Cosine") in ops)
  {
    AttemptResult(db, paperId, w);
    AttemptSucceeds(db, paperId, w);
    AttemptOps(db, paperId, w);
    var e := EmbedFrom(Batches(Texts(Ordered(db, paperId))), w.embed, 0, []);
    var dim := Attempt(db, paperId, w).after.collection.value;
    var ids := IdsOf(PointsOf(paperId, TitleOf(db.papers[paperId]), Ordered(db, paperId), e.0.value, w.baseId, w.stampAt));
    IndexOpsOrder(paperId, e.1, db.collection, dim, ids);
  }

  lemma IndexOpsOrder(paperId: string, calls: seq<Op>, collection: Option<int>, dim: int, ids: seq<int>)
    requires forall k | 0 <= k < |calls| :: calls[k].Embed?
    ensures var ops := [FindPaper(paperId), FindChunks(paperId)] + calls + EnsureCollection(collection, dim)
                       + [Upsert(ids), MarkIndexed(paperId)];
      |ops| >= 2 && ops[|ops| - 1] == MarkIndexed(paperId) && ops[|ops| - 2].Upsert?
      && (collection.None? <==> CreateCollection(dim, "Cosine") in ops)
  {
    var pre := [FindPaper(paperId), FindChunks(paperId)] + calls;
    forall i | 0 <= i < |pre|
      ensures pre[i].FindPaper? || pre[i].FindChunks? || pre[i].Embed?
    {
      if i >= 2 {
        assert pre[i] == calls[i - 2];
      }
    }
    CollectionOps(pre, collection, dim, [Upsert(ids), MarkIndexed(paperId)]);
  }

  lemma CollectionOps(pre: seq<Op>, collection: Option<int>, dim: int, post: seq<Op>)
    requires forall i | 0 <= i < |pre| :: pre[i].FindPaper? || pre[i].FindChunks? || pre[i].Embed?
    requires |post| == 2 && post[0].Upsert? && post[1].MarkIndexed?
    ensures var ops := pre + EnsureCollection(collection, dim) + post;
      ops[|ops| - 1] == post[1] && ops[|ops| - 2] == post[0]
      && (collection.None? <==> CreateCollection(dim, "Cosine") in ops)
  {
    var ops := pre + EnsureCollection(collection, dim) + post;
    if collection.None? {
      assert ops[|pre| + 1] == CreateCollection(dim, "Cosine");
    } else {
      forall i | 0 <= i < |ops|
        ensures ops[i] != CreateCollection(dim, "Cosine")
      {
        if i < |pre| {
          assert ops[i] == pre[i];
        }
      }
    }
  }

  /** Once the upsert succeeded, whether or not the status update did,
      chunk `k` of the paper in ascending order is stored as the point
      `baseId + k`, with its order as `chunk_index`, the paper's title or
      else its file name as `paper_title`, and the k-th payload time. */
  lemma AttemptWritesPoints(db: Db, paperId: string, w: World, k: nat)
    requires PointsWritten(db, paperId, w)
    requires k < |Ordered(db, paperId)|
    ensures var after := Attempt(db, paperId, w).after;
      var c := Ordered(db, paperId)[k];
      w.baseId + k in after.points
      && after.points[w.baseId + k].id == w.baseId + k
      && after.points[w.baseId + k].payload.paperId == paperId
      && after.points[w.baseId + k].payload.chunkIndex == Some(c.order)
      && after.points[w.baseId + k].payload.section == Some(c.section)
      && after.points[w.baseId + k].payload.paperTitle == Some(TitleOf(db.papers[paperId]))
      && after.points[w.baseId + k].payload.createdAt == Some(w.stampAt(k))
  {
    AttemptResult(db, paperId, w);
    StoredPoints(db, paperId, Ordered(db, paperId), Embedded(db, paperId, w).value, w, Attempt(db, paperId, w).after, k);
  }

  /** Once the upsert succeeded, whether or not the status update did, the
      stores hold chunk `k`'s point at id `baseId + k`. */
  lemma StoredPoints(db: Db, paperId: string, chunks: seq<Chunk>, emb: Embedding, w: World, after: Db, k: nat)
    requires paperId in db.papers && k < |chunks|
    requires var written := Written(db, paperId, chunks, emb, w.baseId, w.stampAt);
      after == written || after == Marked(written, paperId, w.indexedAt)
    ensures w.baseId + k in after.points
      && after.points[w.baseId + k].id == w.baseId + k
      && after.points[w.baseId + k].payload.paperId == paperId
      && after.points[w.baseId + k].payload.chunkIndex == Some(chunks[k].order)
      && after.points[w.baseId + k].payload.section == Some(chunks[k].section)
      && after.points[w.baseId + k].payload.paperTitle == Some(TitleOf(db.papers[paperId]))
      && after.points[w.baseId + k].payload.createdAt == Some(w.stampAt(k))
  {
    var written := Written(db, paperId, chunks, emb, w.baseId, w.stampAt);
    IndexingWritesPoints(db, paperId, chunks, emb, w.baseId, w.stampAt, written.points, k);
  }

  lemma IndexingWritesPoints(db: Db, paperId: string, chunks: seq<Chunk>, emb: Embedding, baseId: int, stampAt: nat -> string, stored: map<int, Point>, k: nat)
    requires paperId in db.papers && k < |chunks|
    requires stored == Written(db, paperId, chunks, emb, baseId, stampAt).points
    ensures baseId + k in stored
      && stored[baseId + k].id == baseId + k
      && stored[baseId + k].payload.paperId == paperId
      && stored[baseId + k].payload.chunkIndex == Some(chunks[k].order)
      && stored[baseId + k].payload.section == Some(chunks[k].section)
      && stored[baseId + k].payload.paperTitle == Some(TitleOf(db.papers[paperId]))
      && stored[baseId + k].payload.createdAt == Some(stampAt(k))
  {
    var points := PointsOf(paperId, TitleOf(db.papers[paperId]), chunks, emb, baseId, stampAt);
    UpsertedPoint(db.points, points, stored, k);
  }

  lemma UpsertedPoint(m: map<int, Point>, points: seq<Point>, stored: map<int, Point>, k: nat)
    requires k < |points| && stored == UpsertAll(m, points)
    requires forall i, j | 0 <= i < j < |points| :: points[i].id != points[j].id
    ensures points[k].id in stored && stored[points[k].id] == points[k]
  {
    UpsertAllStores(m, points, k);
  }

  /** Within one attempt the point ids are pairwise distinct. */
  lemma AttemptIdsDistinct(paperId: string, title: string, chunks: seq<Chunk>, emb: Embedding, baseId: int, stampAt: nat -> string)
    ensures var ids := IdsOf(PointsOf(paperId, title, chunks, emb, baseId, stampAt));
      forall i, j | 0 <= i < j < |ids| :: ids[i] != ids[j]
  {
  }

  /** Points an attempt does not write stay as they were, whether the
      attempt succeeds or fails. */
  lemma AttemptKeepsOtherPoints(db: Db, paperId: string, w: World, id: int)
    requires id in db.points && !(w.baseId <= id < w.baseId + |Ordered(db, paperId)|)
    ensures var after := Attempt(db, paperId, w).after;
      id in after.points && after.points[id] == db.points[id]
  {
    if PointsWritten(db, paperId, w) {
      AttemptResult(db, paperId, w);
      IndexingKeepsOtherPoints(db, paperId, Ordered(db, paperId), Embedded(db, paperId, w).value, w.baseId, w.stampAt, id);
    }
  }

  lemma IndexingKeepsOtherPoints(db: Db, paperId: string, chunks: seq<Chunk>, emb: Embedding, baseId: int, stampAt: nat -> string, id: int)
    requires paperId in db.papers && id in db.points && !(baseId <= id < baseId + |chunks|)
    ensures var after := Written(db, paperId, chunks, emb, baseId, stampAt);
      id in after.points && after.points[id] == db.points[id]
  {
    var points := PointsOf(paperId, TitleOf(db.papers[paperId]), chunks, emb, baseId, stampAt);
    assert id !in IdsOf(points) by {
      forall j | 0 <= j < |points|
        ensures IdsOf(points)[j] != id
      {
      }
    }
  }

  /** Every attempt, successful or not, keeps the stores valid: it changes
      no chunk and no `chunk_count`. */
  lemma AttemptKeepsValid(db: Db, paperId: string, w: World)
    requires Valid(db)
    ensures Valid(Attempt(db, paperId, w).after)
  {
    AttemptLeavesRest(db, paperId, w);
    SameCountsValid(db, Attempt(db, paperId, w).after);
  }

  /** Stores with the same chunks and the same papers' `chunk_count`s are
      valid together. */
  lemma SameCountsValid(db: Db, after: Db)
    requires Valid(db) && after.chunks == db.chunks && after.papers.Keys == db.papers.Keys
    requires forall id | id in db.papers :: after.papers[id].chunkCount == db.papers[id].chunkCount
    ensures Valid(after)
  {
  }

  /** A later attempt for the same paper indexes the same chunks. */
  lemma OrderedAfter(db: Db, paperId: string, w: World)
    ensures Ordered(Attempt(db, paperId, w).after, paperId) == Ordered(db, paperId)
  {
    AttemptLeavesRest(db, paperId, w);
  }

  /** The ids are minted from the clock, so an attempt that runs again for
      a paper whose points an earlier attempt already wrote (a retry after
      the status update failed, or the job delivered twice) writes each
      chunk a second time. The earlier attempt left chunk `k` at id
      `a = base1 + k` (`AttemptWritesPoints`), and a retry indexes the same
      chunks (`OrderedAfter`). When `a` lies outside the retry's id range,
      that point survives next to the retry's own point for chunk `k`: the
      chunk is stored twice. */
  lemma RetryDuplicatesPoints(once: Db, paperId: string, w: World, a: int, k: nat)
    requires PointsWritten(once, paperId, w) && k < |Ordered(once, paperId)|
    requires a in once.points && once.points[a].payload.paperId == paperId
    requires once.points[a].payload.chunkIndex == Some(Ordered(once, paperId)[k].order)
    requires !(w.baseId <= a < w.baseId + |Ordered(once, paperId)|)
    ensures var twice := Attempt(once, paperId, w).after;
      a in twice.points && w.baseId + k in twice.points && a != w.baseId + k
      && twice.points[a] == once.points[a]
      && twice.points[a].payload.chunkIndex == twice.points[w.baseId + k].payload.chunkIndex
      && twice.points[a].payload.paperId == twice.points[w.baseId + k].payload.paperId == paperId
  {
    AttemptKeepsOtherPoints(once, paperId, w, a);
    AttemptWritesPoints(once, paperId, w, k);
  }

  /** When the retry's id range covers the id of an earlier point, that
      point is overwritten: if the earlier attempt stored chunk `k` at id
      `baseId + j`, where the retry puts chunk `j`, the point there
      afterwards is the retry's point for chunk `j`, with its order and the
      retry's payload time, and chunk `k`'s earlier point is gone. So a
      retry started less than one id per chunk after the first attempt
      replaces part of the first attempt's points instead of duplicating
      them. */
  lemma RetryOverwritesPoints(once: Db, paperId: string, w: World, j: nat, k: nat)
    requires PointsWritten(once, paperId, w) && j < |Ordered(once, paperId)| && k < |Ordered(once, paperId)|
    requires w.baseId + j in once.points
    requires once.points[w.baseId + j].payload.chunkIndex == Some(Ordered(once, paperId)[k].order)
    requires Ordered(once, paperId)[k].order != Ordered(once, paperId)[j].order
    ensures var twice := Attempt(once, paperId, w).after;
      w.baseId + j in twice.points
      && twice.points[w.baseId + j] != once.points[w.baseId + j]
      && twice.points[w.baseId + j].payload.paperId == paperId
      && twice.points[w.baseId + j].payload.chunkIndex == Some(Ordered(once, paperId)[j].order)
      && twice.points[w.baseId + j].payload.createdAt == Some(w.stampAt(j))
  {
    AttemptWritesPoints(once, paperId, w, j);
  }
}
