/** Merging the step logs of the parallel lookup chunks: `merge_chunk_log_storage` in
    src/model_execution_worker/distributed_tasks.py. */
module LogStorage {
  import opened Options
  import opened Arithmetic
  import opened TaskCanvas

  /** A chunk's result may lack its log map. */
  type ChunkLogs = Option<map<string, string>>

  /** Which chunk's entry survives for a key: the last one that has it. */
  function LastWith(chunks: seq<ChunkLogs>, key: string): Option<string> {
    if chunks == [] then None
    else
      var last := chunks[|chunks| - 1].GetOr(map[]);
      if key in last then Some(last[key]) else LastWith(chunks[..|chunks| - 1], key)
  }

  /** The merged map holds exactly the surviving entries. */
  ghost predicate IsMerge(chunks: seq<ChunkLogs>, merged: map<string, string>) {
    forall key :: LastWith(chunks, key) == if key in merged then Some(merged[key]) else None
  }

  /** Chunk `i` is the last one with an entry for the key. */
  ghost predicate LastHolder(chunks: seq<ChunkLogs>, key: string, i: nat)
    requires i < |chunks|
  {
    key in chunks[i].GetOr(map[]) && forall j :: i < j < |chunks| ==> key !in chunks[j].GetOr(map[])
  }

  lemma {:induction false} LastHolderSurvives(chunks: seq<ChunkLogs>, key: string, i: nat)
    requires i < |chunks| && LastHolder(chunks, key, i)
    ensures LastWith(chunks, key) == Some(chunks[i].GetOr(map[])[key])
  {
    var n := |chunks| - 1;
    if i < n {
      assert key !in chunks[n].GetOr(map[]);
      LastHolderSurvives(chunks[..n], key, i);
    }
  }

  lemma {:induction false} NobodyHolds(chunks: seq<ChunkLogs>, key: string)
    requires forall i :: 0 <= i < |chunks| ==> key !in chunks[i].GetOr(map[])
    ensures LastWith(chunks, key).None?
  {
    if chunks != [] {
      NobodyHolds(chunks[..|chunks| - 1], key);
    }
  }

  /** The merged map has, for each key, the entry of the last chunk that holds it, and no other keys. */
  lemma MergeKeepsLast(chunks: seq<ChunkLogs>, merged: map<string, string>, key: string)
    requires IsMerge(chunks, merged)
    ensures forall i: nat :: i < |chunks| && LastHolder(chunks, key, i) ==>
      key in merged && merged[key] == chunks[i].GetOr(map[])[key]
    ensures (forall i :: 0 <= i < |chunks| ==> key !in chunks[i].GetOr(map[])) ==> key !in merged
  {
    forall i: nat | i < |chunks| && LastHolder(chunks, key, i) { LastHolderSurvives(chunks, key, i); }
    if forall i :: 0 <= i < |chunks| ==> key !in chunks[i].GetOr(map[]) { NobodyHolds(chunks, key); }
  }

  method MergeChunkLogStorage(chunks: seq<ChunkLogs>) returns (merged: map<string, string>)
    ensures IsMerge(chunks, merged)
  {
    merged := map[];
    for i := 0 to |chunks|
      invariant IsMerge(chunks[..i], merged)
    {
      assert chunks[..i + 1][..i] == chunks[..i];
      merged := merged + chunks[i].GetOr(map[]);
    }
    assert chunks[..|chunks|] == chunks;
  }

  /** What chunk `i` returns: the log map it was handed, with its own step log added. */
  function ChunkResult(base: map<string, string>, logs: seq<string>, i: nat): map<string, string>
    requires i < |logs|
  {
    base[ChordSlug("prepare-keys-file", i) := logs[i]]
  }

  function ChunkResults(base: map<string, string>, logs: seq<string>): (chunks: seq<ChunkLogs>)
    ensures |chunks| == |logs|
  {
    seq(|logs|, i requires 0 <= i < |logs| => Some(ChunkResult(base, logs, i)))
  }

  lemma {:induction false} LastWithOwnSlug(base: map<string, string>, logs: seq<string>, m: nat, key: string)
    requires m <= |logs| && forall i: nat :: i < |logs| ==> ChordSlug("prepare-keys-file", i) !in base
    ensures forall i: nat :: i < m && key == ChordSlug("prepare-keys-file", i) ==>
      LastWith(ChunkResults(base, logs)[..m], key) == Some(logs[i])
    ensures (forall i: nat :: i < m ==> key != ChordSlug("prepare-keys-file", i)) ==>
      LastWith(ChunkResults(base, logs)[..m], key) == if m > 0 && key in base then Some(base[key]) else None
  {
    if m > 0 {
      LastWithOwnSlug(base, logs, m - 1, key);
      LastWithStep(base, logs, m - 1, key);
      SlugsDiffer(m - 1);
    }
  }

  lemma LastWithStep(base: map<string, string>, logs: seq<string>, m: nat, key: string)
    requires m < |logs|
    ensures LastWith(ChunkResults(base, logs)[..m + 1], key)
         == if key == ChordSlug("prepare-keys-file", m) then Some(logs[m])
            else if key in base then Some(base[key])
            else LastWith(ChunkResults(base, logs)[..m], key)
  {
    var chunks := ChunkResults(base, logs);
    assert chunks[..m + 1][..m] == chunks[..m];
  }

  lemma SlugsDiffer(m: nat)
    ensures forall i: nat :: i < m ==> ChordSlug("prepare-keys-file", i) != ChordSlug("prepare-keys-file", m)
  {
    forall i: nat | i < m
      ensures ChordSlug("prepare-keys-file", i) != ChordSlug("prepare-keys-file", m)
    {
      NumberedNamesDiffer("prepare-keys-file-", i, m);
      assert ChordSlug("prepare-keys-file", i) + "" == "prepare-keys-file-" + Decimal(i) + "";
    }
  }

  /** No chunk's log is lost and none is overwritten: the merge holds every chunk's own entry, every
      entry from before the chunks, and nothing else. */
  lemma NoChunkLogIsLost(base: map<string, string>, logs: seq<string>, merged: map<string, string>)
    requires logs != [] && forall i: nat :: i < |logs| ==> ChordSlug("prepare-keys-file", i) !in base
    requires IsMerge(ChunkResults(base, logs), merged)
    ensures forall i: nat :: i < |logs| ==>
      ChordSlug("prepare-keys-file", i) in merged && merged[ChordSlug("prepare-keys-file", i)] == logs[i]
    ensures forall key :: key in base ==> key in merged && merged[key] == base[key]
    ensures forall key :: key in merged ==> key in base || exists i: nat :: i < |logs| && key == ChordSlug("prepare-keys-file", i)
  {
    var chunks := ChunkResults(base, logs);
    assert chunks[..|logs|] == chunks;
    forall key { LastWithOwnSlug(base, logs, |logs|, key); }
  }
}
