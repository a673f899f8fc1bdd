/** Pre-splitting the exposure into one stored file per lookup chunk:
    `store_subject_at_risk_chunks` and `load_subject_at_risk_chunk` in
    src/model_execution_worker/distributed_tasks.py. */
module ChunkStore {
  import opened Options
  import opened Arithmetic
  import opened KeysMerge
  import opened ExposureChunks

  /** The reference `filestore.put` returns for chunk `c`'s file. */
  function ChunkRef(subdir: string, c: nat): string {
    subdir + "/sar-chunk-" + Decimal(c + 1) + ".parquet"
  }

  function ChunkRefs(subdir: string, k: nat): (refs: seq<string>)
    ensures |refs| == k
  {
    seq(k, c requires 0 <= c => ChunkRef(subdir, c))
  }

  lemma ChunkRefsDiffer(subdir: string, c: nat, d: nat)
    requires c != d
    ensures ChunkRef(subdir, c) != ChunkRef(subdir, d)
  {
    NumberedNamesDiffer(subdir + "/sar-chunk-", c + 1, d + 1, ".parquet");
  }

  /** The files a lookup chunk would find for the given references, or the rows it recomputes. */
  function Loaded<S(==,!new), P>(
      files: map<string, seq<Row<S, P>>>, chunkRefs: seq<string>, exposure: seq<Row<S, P>>, k: nat, c: nat)
    : Option<seq<Row<S, P>>>
    requires c < k
  {
    if |chunkRefs| != k then Some(SplitData(exposure, k, c))
    else if chunkRefs[c] in files then Some(files[chunkRefs[c]])
    else None
  }

  /** The rows chunk `c` is meant to have: all those of its block of subjects, in order. */
  function RowsOfChunk<S(==,!new), P>(sar: seq<Row<S, P>>, k: nat, c: nat): seq<Row<S, P>>
    requires c < k
  {
    var subjects := ChunkSubjects(SubjectIds(sar), k, c);
    RowsOf(sar, set s | s in subjects)
  }

  lemma StoredRows<S(!new), P>(sar: seq<Row<S, P>>, k: nat, c: nat)
    requires c < k
    ensures Within(ChunkRows(SubjectIds(sar), k)[c], |sar|)
    ensures Take(sar, ChunkRows(SubjectIds(sar), k)[c]) == RowsOfChunk(sar, k, c)
  {
    ChunkPositionsExist(SubjectIds(sar), k, c);
    ChunkIsRowsOfSubjects(sar, k, c);
  }

  /** The files hold the first `m` chunks of `sar`, and everything else as in `before`. */
  ghost predicate HoldsChunks<S(!new), P>(
      files: map<string, seq<Row<S, P>>>, before: map<string, seq<Row<S, P>>>, subdir: string, sar: seq<Row<S, P>>, k: nat, m: nat)
    requires m <= k
  {
    && (forall c: nat :: c < m ==> ChunkRef(subdir, c) in files && files[ChunkRef(subdir, c)] == RowsOfChunk(sar, k, c))
    && (forall ref :: ref in files <==> ref in before || ref in ChunkRefs(subdir, m))
    && (forall ref :: ref in before && ref !in ChunkRefs(subdir, m) ==> files[ref] == before[ref])
  }

  lemma HoldsOneMore<S(!new), P>(
      files: map<string, seq<Row<S, P>>>, before: map<string, seq<Row<S, P>>>, subdir: string, sar: seq<Row<S, P>>, k: nat, m: nat)
    requires m < k && HoldsChunks(files, before, subdir, sar, k, m)
    ensures HoldsChunks(files[ChunkRef(subdir, m) := RowsOfChunk(sar, k, m)], before, subdir, sar, k, m + 1)
  {
    forall d: nat | d < m { ChunkRefsDiffer(subdir, m, d); }
    assert ChunkRefs(subdir, m + 1) == ChunkRefs(subdir, m) + [ChunkRef(subdir, m)];
  }

  class Filestore<S(==,!new), P> {
    var files: map<string, seq<Row<S, P>>>

    constructor ()
      ensures files == map[]
    {
      files := map[];
    }

    /** Splits the row positions once and stores every chunk, returning one reference per chunk. */
    method StoreChunks(sar: seq<Row<S, P>>, k: nat, subdir: string) returns (refs: seq<string>)
      requires 0 < k
      modifies this
      ensures refs == ChunkRefs(subdir, k)
      ensures HoldsChunks(files, old(files), subdir, sar, k, k)
    {
      var pieces := ChunkRows(SubjectIds(sar), k);
      refs := [];
      for c := 0 to k
        invariant refs == ChunkRefs(subdir, c)
        invariant HoldsChunks(files, old(files), subdir, sar, k, c)
      {
        var ref := ChunkRef(subdir, c);
        assert ChunkRefs(subdir, c + 1) == ChunkRefs(subdir, c) + [ref];
        StoredRows(sar, k, c);
        HoldsOneMore(files, old(files), subdir, sar, k, c);
        files := files[ref := Take(sar, pieces[c])];
        refs := refs + [ref];
      }
    }

    /** The chunk's stored rows, or the exposure split again when the stored count differs; `None`
        when a stored file is gone. */
    method LoadChunk(chunkRefs: Option<seq<string>>, exposure: seq<Row<S, P>>, k: nat, c: nat)
      returns (rows: Option<seq<Row<S, P>>>)
      requires c < k
      ensures rows == Loaded(files, chunkRefs.GetOr([]), exposure, k, c)
    {
      var refs := chunkRefs.GetOr([]);
      if |refs| != k {
        return Some(SplitData(exposure, k, c));
      }
      rows := if refs[c] in files then Some(files[refs[c]]) else None;
    }
  }

  /** A stored chunk is the chunk the fallback would recompute, whichever way it is loaded. */
  lemma StoredChunkIsRecomputedChunk<S(!new), P>(
      files: map<string, seq<Row<S, P>>>, before: map<string, seq<Row<S, P>>>, subdir: string, sar: seq<Row<S, P>>,
      k: nat, c: nat, other: seq<string>, exposure: seq<Row<S, P>>)
    requires c < k && HoldsChunks(files, before, subdir, sar, k, k) && |other| != k
    ensures Loaded(files, ChunkRefs(subdir, k), exposure, k, c) == Some(RowsOfChunk(sar, k, c)) == Loaded(files, other, sar, k, c)
  {
    ChunkIsRowsOfSubjects(sar, k, c);
    assert ChunkRefs(subdir, k)[c] == ChunkRef(subdir, c);
  }
}
