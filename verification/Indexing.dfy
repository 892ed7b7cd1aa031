/** Walking, chunking, embedding and upserting one repository in batches (`_index` and `_flush` of
    `ingestion/pipeline.py`). The files with their chunks, and the embedder, are inputs. */
module Indexing {
  import opened Prelude
  import opened Chunker
  import opened VectorStore

  /** A file the walk yields: its text may fail to read. */
  datatype SourceFile = SourceFile(readable: bool, chunks: seq<Chunk>)

  function AllChunks(files: seq<SourceFile>): seq<Chunk> {
    if files == [] then []
    else AllChunks(files[..|files| - 1]) + (if files[|files| - 1].readable then files[|files| - 1].chunks else [])
  }

  predicate IsReadableIn(file: SourceFile, files: seq<SourceFile>) {
    file in files && file.readable
  }

  /** The chunks are those of the files that could be read, and no others. */
  lemma {:induction false} AllChunksAre(files: seq<SourceFile>, c: Chunk)
    ensures c in AllChunks(files) <==> IsOfAReadable(c, files)
    decreases |files|
  {
    if files != [] {
      var b, last := files[..|files| - 1], files[|files| - 1];
      AllChunksAre(b, c);
      assert files == b + [last];
      if last.readable && c in last.chunks {
        assert IsReadableIn(last, files);
      }
      if file :| IsReadableIn(file, b) && c in file.chunks {
        assert IsReadableIn(file, files);
      }
    }
  }

  function ReadableFiles(files: seq<SourceFile>): nat {
    if files == [] then 0 else ReadableFiles(files[..|files| - 1]) + (if files[|files| - 1].readable then 1 else 0)
  }

  function Embedded(chunks: seq<Chunk>, embed: Chunk -> Vector): (r: seq<Vector>)
    ensures |r| == |chunks|
  {
    seq(|chunks|, i requires 0 <= i < |chunks| => embed(chunks[i]))
  }

  /** What one upsert of the whole list would write. */
  function Built(project: ProjectId, generation: nat, chunks: seq<Chunk>, embed: Chunk -> Vector,
      commit: string): seq<Point> {
    Batch(project, generation, chunks, Embedded(chunks, embed), commit)
  }

  lemma {:induction false} UpsertedInParts(m: map<PointId, Point>, a: seq<Point>, b: seq<Point>)
    ensures Upserted(Upserted(m, a), b) == Upserted(m, a + b)
    decreases |b|
  {
    if b == [] {
      assert a + b == a;
    } else {
      var n := |b| - 1;
      UpsertedInParts(m, a, b[..n]);
      assert (a + b)[..|a + b| - 1] == a + b[..n];
    }
  }

  lemma BuiltInParts(project: ProjectId, generation: nat, a: seq<Chunk>, b: seq<Chunk>, embed: Chunk -> Vector,
      commit: string)
    ensures Built(project, generation, a + b, embed, commit)
            == Built(project, generation, a, embed, commit) + Built(project, generation, b, embed, commit)
  {
  }

  lemma HeadMoves(written: seq<Chunk>, batch: seq<Chunk>, n: nat)
    requires n <= |batch|
    ensures (written + batch[..n]) + batch[n..] == written + batch
  {
    assert batch == batch[..n] + batch[n..];
  }

  /** What is written is of files that could be read; and once it is complete it is all they have, and they are
      counted. */
  ghost predicate WritesWhatIsReadable(files: seq<SourceFile>, written: seq<Chunk>, complete: bool, count: nat) {
    && (forall c :: c in written ==> IsOfAReadable(c, files))
    && (complete ==> forall c :: IsOfAReadable(c, files) ==> c in written)
    && (complete ==> count == |set i: nat | i < |files| && files[i].readable|)
  }

  ghost predicate IsOfAReadable(c: Chunk, files: seq<SourceFile>) {
    exists file :: IsReadableIn(file, files) && c in file.chunks
  }

  lemma {:induction false} ReadableFilesAre(files: seq<SourceFile>)
    ensures ReadableFiles(files) == |set i: nat | i < |files| && files[i].readable|
    decreases |files|
  {
    if files != [] {
      var n := |files| - 1;
      ReadableFilesAre(files[..n]);
      assert (set i: nat | i < |files| && files[i].readable) ==
             (set i: nat | i < n && files[..n][i].readable) + (if files[n].readable then {n} else {});
    }
  }

  lemma ReadableIsWritten(files: seq<SourceFile>, written: seq<Chunk>, complete: bool, count: nat)
    requires written <= AllChunks(files)
    requires complete ==> written == AllChunks(files) && count == ReadableFiles(files)
    ensures WritesWhatIsReadable(files, written, complete, count)
  {
    ReadableFilesAre(files);
    forall c ensures c in AllChunks(files) <==> IsOfAReadable(c, files) {
      AllChunksAre(files, c);
    }
  }

  class IngestionPipeline {
    const store: InMemoryVectorStore
    const batchSize: nat
    const embed: Chunk -> Vector
    var flushed: seq<seq<Chunk>>   // the batches written so far, in order
    ghost var base: map<PointId, Point>

    constructor (store: InMemoryVectorStore, batchSize: nat, embed: Chunk -> Vector)
      requires batchSize >= 1
      ensures this.store == store && this.batchSize == batchSize && this.embed == embed
    {
      this.store, this.batchSize, this.embed := store, batchSize, embed;
      this.flushed, this.base := [], map[];
    }

    /** The store holds what it held before the run, and over it the chunks flushed so far. */
    ghost predicate Written(project: ProjectId, generation: nat, commit: string)
      reads this, store
    {
      && Named(store.points)
      && AsMap(store.points) == Upserted(base, Built(project, generation, Flat(flushed), embed, commit))
    }

    /** `_flush`: one batch goes to the embedder and then to the store, and either may raise. */
    method Flush(project: ProjectId, generation: nat, chunks: seq<Chunk>, commit: string, raises: bool)
        returns (ok: bool)
      requires Written(project, generation, commit)
      modifies store, this`flushed
      ensures Written(project, generation, commit) && ok == !raises
      ensures flushed == if ok then old(flushed) + [chunks] else old(flushed)
    {
      ok := !raises;
      if ok {
        var vectors := Embedded(chunks, embed);
        store.Upsert(project, generation, chunks, vectors, commit);
        FlatSnoc(flushed, chunks);
        BuiltInParts(project, generation, Flat(flushed), chunks, embed, commit);
        UpsertedInParts(base, Built(project, generation, Flat(flushed), embed, commit),
            Built(project, generation, chunks, embed, commit));
        flushed := flushed + [chunks];
      }
    }

    ghost predicate Full(batches: seq<seq<Chunk>>) {
      forall i :: 0 <= i < |batches| ==> |batches[i]| == batchSize
    }

    /** The inner loop: while a full batch is waiting, flush it. */
    method Drain(project: ProjectId, generation: nat, batch0: seq<Chunk>, commit: string, failAt: Option<nat>)
      returns (ok: bool, batch: seq<Chunk>, count: nat)
      requires batchSize >= 1 && Written(project, generation, commit) && Full(flushed)
      modifies store, this`flushed
      ensures Written(project, generation, commit) && Full(flushed)
      ensures Flat(flushed) + batch == old(Flat(flushed)) + batch0
      ensures count == |Flat(flushed)| - |old(Flat(flushed))|
      ensures ok ==> |batch| < batchSize
      ensures !ok ==> failAt == Some(|flushed|)
    {
      ok, batch, count := true, batch0, 0;
      while |batch| >= batchSize
        invariant Written(project, generation, commit) && Full(flushed)
        invariant Flat(flushed) + batch == old(Flat(flushed)) + batch0
        invariant count == |Flat(flushed)| - |old(Flat(flushed))|
        decreases |batch|
      {
        var head, rest := batch[..batchSize], batch[batchSize..];
        FlatSnoc(flushed, head);
        HeadMoves(Flat(flushed), batch, batchSize);
        ok := Flush(project, generation, head, commit, failAt == Some(|flushed|));
        if !ok {
          return;
        }
        batch, count := rest, count + |head|;
      }
    }

    /** `_index`. Cut off by a flush that raises, or complete: then the flushed batches concatenate to the
        chunk list, all but the last are full, none is empty, and the counts are those of the list. */
    method Index(project: ProjectId, generation: nat, files: seq<SourceFile>, commit: string, failAt: Option<nat>)
      returns (ok: bool, fileCount: nat, chunkCount: nat)
      requires batchSize >= 1 && Named(store.points)
      modifies store, this`flushed, this`base
      ensures Written(project, generation, commit) && base == old(AsMap(store.points))
      ensures ok ==>
              Flat(flushed) == AllChunks(files) && chunkCount == |AllChunks(files)|
              && fileCount == ReadableFiles(files)
      ensures ok ==> forall i :: 0 <= i < |flushed| ==>
              0 < |flushed[i]| <= batchSize && (i + 1 < |flushed| ==> |flushed[i]| == batchSize)
      ensures !ok ==> Flat(flushed) <= AllChunks(files)
      ensures WritesWhatIsReadable(files, Flat(flushed), ok, fileCount)
    {
      base, flushed := AsMap(store.points), [];
      fileCount, chunkCount := 0, 0;
      var batch: seq<Chunk> := [];
      for i := 0 to |files|
        invariant Written(project, generation, commit) && base == old(AsMap(store.points)) && Full(flushed)
        invariant Flat(flushed) + batch == AllChunks(files[..i]) && |batch| < batchSize
        invariant chunkCount == |Flat(flushed)| && fileCount == ReadableFiles(files[..i])
      {
        assert files[..i + 1][..i] == files[..i];
        if !files[i].readable {
          continue;
        }
        fileCount := fileCount + 1;
        batch := batch + files[i].chunks;
        assert Flat(flushed) + batch == AllChunks(files[..i + 1]);
        var count;
        ok, batch, count := Drain(project, generation, batch, commit, failAt);
        chunkCount := chunkCount + count;
        if !ok {
          ChunksOfPrefix(files, i + 1);
          ReadableIsWritten(files, Flat(flushed), ok, fileCount);
          return;
        }
      }
      assert files[..|files|] == files;
      ok := true;
      if batch != [] {
        FlatSnoc(flushed, batch);
        ok := Flush(project, generation, batch, commit, failAt == Some(|flushed|));
        chunkCount := chunkCount + |batch|;
      }
      ReadableIsWritten(files, Flat(flushed), ok, fileCount);
    }
  }

  lemma {:induction false} ChunksOfPrefix(files: seq<SourceFile>, k: nat)
    requires k <= |files|
    ensures AllChunks(files[..k]) <= AllChunks(files)
    decreases |files|
  {
    if k == |files| {
      assert files[..k] == files;
    } else {
      ChunksOfPrefix(files[..|files| - 1], k);
      assert files[..|files| - 1][..k] == files[..k];
    }
  }

  // ---------------------------------------------------------------- retries

  ghost predicate Covers(all: seq<Point>, some: seq<Point>) {
    forall i :: 0 <= i < |some| ==> some[i].id in Upserted(map[], all)
  }

  lemma {:induction false} UpsertedOver(m: map<PointId, Point>, batch: seq<Point>)
    ensures Upserted(m, batch) == m + Upserted(map[], batch)
    decreases |batch|
  {
    if batch != [] {
      UpsertedOver(m, batch[..|batch| - 1]);
    }
  }

  lemma {:induction false} UpsertedKeys(m: map<PointId, Point>, batch: seq<Point>, id: PointId)
    requires id in Upserted(m, batch)
    ensures id in m || exists i :: 0 <= i < |batch| && batch[i].id == id
    decreases |batch|
  {
    if batch != [] && batch[|batch| - 1].id != id {
      UpsertedKeys(m, batch[..|batch| - 1], id);
      if id !in m {
        var i :| 0 <= i < |batch[..|batch| - 1]| && batch[..|batch| - 1][i].id == id;
        assert batch[i].id == id;
      }
    }
  }

  /** A complete attempt erases whatever earlier attempts wrote under its own ids, whatever vectors and
      commit they had. */
  lemma CompleteAttemptErasesEarlier(m: map<PointId, Point>, earlier: seq<Point>, all: seq<Point>)
    requires Covers(all, earlier)
    ensures Upserted(Upserted(m, earlier), all) == Upserted(m, all)
  {
    UpsertedOver(m, earlier);
    UpsertedOver(m, all);
    UpsertedOver(Upserted(m, earlier), all);
    var e, a := Upserted(map[], earlier), Upserted(map[], all);
    forall id | id in e ensures id in a {
      UpsertedKeys(map[], earlier, id);
      var i :| 0 <= i < |earlier| && earlier[i].id == id;
      assert earlier[i].id in a;
    }
    assert (m + e) + a == m + a;
  }

  /** One interrupted attempt: how far it got, and the vectors and commit it wrote. */
  datatype Attempt = Attempt(reached: nat, embed: Chunk -> Vector, commit: string)

  function AfterAttempts(m: map<PointId, Point>, project: ProjectId, generation: nat, chunks: seq<Chunk>,
      attempts: seq<Attempt>): map<PointId, Point>
  {
    if attempts == [] then m
    else
      var last := attempts[|attempts| - 1];
      Upserted(AfterAttempts(m, project, generation, chunks, attempts[..|attempts| - 1]),
               Built(project, generation, chunks[..Min(last.reached, |chunks|)], last.embed, last.commit))
  }

  lemma {:induction false} BuiltIds(project: ProjectId, generation: nat, chunks: seq<Chunk>, embed: Chunk -> Vector,
      commit: string, k: nat)
    requires k < |chunks|
    ensures IdOf(project, chunks[k].filePath, chunks[k].index, generation)
            in Upserted(map[], Built(project, generation, chunks, embed, commit))
    decreases |chunks|
  {
    var n := |chunks| - 1;
    var built := Built(project, generation, chunks, embed, commit);
    assert built[..n] == Built(project, generation, chunks[..n], embed, commit);
    if k < n {
      BuiltIds(project, generation, chunks[..n], embed, commit, k);
    }
  }

  /** Batched, retried indexing refines one-shot indexing: after any number of interrupted attempts over
      the same chunk list, a complete one leaves the store as a single upsert of the list would have. */
  lemma {:induction false} RetriesRefineOneShot(m: map<PointId, Point>, project: ProjectId, generation: nat,
      chunks: seq<Chunk>, attempts: seq<Attempt>, embed: Chunk -> Vector, commit: string)
    ensures Upserted(AfterAttempts(m, project, generation, chunks, attempts),
            Built(project, generation, chunks, embed, commit))
            == Upserted(m, Built(project, generation, chunks, embed, commit))
    decreases |attempts|
  {
    if attempts != [] {
      var last := attempts[|attempts| - 1];
      var before := AfterAttempts(m, project, generation, chunks, attempts[..|attempts| - 1]);
      var k := Min(last.reached, |chunks|);
      var earlier := Built(project, generation, chunks[..k], last.embed, last.commit);
      var all := Built(project, generation, chunks, embed, commit);
      forall i | 0 <= i < |earlier| ensures earlier[i].id in Upserted(map[], all) {
        BuiltIds(project, generation, chunks, embed, commit, i);
      }
      CompleteAttemptErasesEarlier(before, earlier, all);
      RetriesRefineOneShot(m, project, generation, chunks, attempts[..|attempts| - 1], embed, commit);
    }
  }
}
