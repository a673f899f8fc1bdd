/** Looking a portfolio up chunk by chunk and merging the chunk files means the same as looking it
    up whole: `prepare_keys_file_chunk`, `_merge_csv_streaming`, `_merge_parquet_streaming` and
    `collect_keys` in src/model_execution_worker/distributed_tasks.py.

    The lookup itself is the model's own code, so it is a parameter. */
module KeysMerge {
  import opened Sequences
  import opened ExposureChunks
  import opened Options

  /** A row of the subject-at-risk exposure: its `loc_id` and everything else. */
  datatype Row<S, P> = Row(subject: S, data: P)

  function SubjectIds<S, P>(rows: seq<Row<S, P>>): (ids: seq<S>)
    ensures |ids| == |rows|
  {
    seq(|rows|, i requires 0 <= i < |rows| => rows[i].subject)
  }

  predicate Within(positions: seq<nat>, n: nat) {
    forall i :: 0 <= i < |positions| ==> positions[i] < n
  }

  /** `df.iloc[positions]`. */
  function Take<T>(xs: seq<T>, positions: seq<nat>): (ys: seq<T>)
    requires Within(positions, |xs|)
    ensures |ys| == |positions|
  {
    seq(|positions|, i requires 0 <= i < |positions| => xs[positions[i]])
  }

  lemma ChunkPositionsExist<S(!new)>(ids: seq<S>, k: nat, c: nat)
    requires c < k
    ensures Within(ChunkRows(ids, k)[c], |ids|)
  {
    ChunkRowsArePositions(ids, k, c);
    BlockPositionsExist(ids, k, c, |ids|);
  }

  lemma BlockPositionsExist<S(!new)>(ids: seq<S>, k: nat, c: nat, m: nat)
    requires c < k && m <= |ids|
    ensures Within(PositionsInBlock(ids, k, c, m), |ids|)
  {
    var ps := PositionsInBlock(ids, k, c, m);
    assert forall i :: 0 <= i < |ps| ==> ps[i] in ps;
  }

  /** `split_subject_at_risk_data`: the rows of lookup chunk `c`. */
  function SplitData<S(==,!new), P>(sar: seq<Row<S, P>>, k: nat, c: nat): seq<Row<S, P>>
    requires c < k
  {
    ChunkPositionsExist(SubjectIds(sar), k, c);
    Take(sar, ChunkRows(SubjectIds(sar), k)[c])
  }

  /** The rows of the given subjects, in their original order. */
  function RowsOf<S(==), P>(rows: seq<Row<S, P>>, subjects: set<S>): seq<Row<S, P>> {
    if rows == [] then []
    else
      var last := rows[|rows| - 1];
      RowsOf(rows[..|rows| - 1], subjects) + if last.subject in subjects then [last] else []
  }

  function Keep<T(==)>(xs: seq<T>, wanted: set<T>): seq<T> {
    if xs == [] then []
    else
      var last := xs[|xs| - 1];
      Keep(xs[..|xs| - 1], wanted) + if last in wanted then [last] else []
  }

  ghost function Elements<T>(xs: seq<T>): set<T> {
    set x | x in xs
  }

  // ---- what a chunk holds --------------------------------------------------

  /** A chunk's rows are all the rows of its block of subjects, in order. */
  lemma ChunkIsRowsOfSubjects<S(!new), P>(sar: seq<Row<S, P>>, k: nat, c: nat)
    requires c < k
    ensures SplitData(sar, k, c) == RowsOf(sar, Elements(ChunkSubjects(SubjectIds(sar), k, c)))
  {
    ChunkRowsArePositions(SubjectIds(sar), k, c);
    TakePositions(sar, k, c, |sar|);
    assert sar[..|sar|] == sar;
  }

  lemma InBlockSubjects<S(!new)>(ids: seq<S>, k: nat, c: nat, i: nat)
    requires c < k && i < |ids|
    ensures InBlock(|Distinct(ids)|, k, Rank(ids, i), c) <==> ids[i] in ChunkSubjects(ids, k, c)
  {
    var d := Distinct(ids);
    BlockBounds(|d|, k, c);
    var block := ChunkSubjects(ids, k, c);
    var lo := BlockStart(|d|, k, c);
    if InBlock(|d|, k, Rank(ids, i), c) {
      assert block[Rank(ids, i) - lo] == ids[i];
    }
    if ids[i] in block {
      var j :| 0 <= j < |block| && block[j] == ids[i];
      IndexOfIs(d, lo + j);
    }
  }

  lemma {:induction false} TakePositions<S(!new), P>(sar: seq<Row<S, P>>, k: nat, c: nat, m: nat)
    requires c < k && m <= |sar|
    ensures Within(PositionsInBlock(SubjectIds(sar), k, c, m), |sar|)
    ensures Take(sar, PositionsInBlock(SubjectIds(sar), k, c, m))
         == RowsOf(sar[..m], Elements(ChunkSubjects(SubjectIds(sar), k, c)))
  {
    BlockPositionsExist(SubjectIds(sar), k, c, m);
    if m > 0 {
      TakePositions(sar, k, c, m - 1);
      InBlockSubjects(SubjectIds(sar), k, c, m - 1);
      RowsOfSnoc(sar[..m - 1], sar[m - 1], Elements(ChunkSubjects(SubjectIds(sar), k, c)));
      PrefixStep(sar, m);
      TakeSnoc(sar, PositionsInBlock(SubjectIds(sar), k, c, m - 1), m - 1);
    }
  }

  lemma TakeSnoc<T>(xs: seq<T>, positions: seq<nat>, p: nat)
    requires Within(positions, |xs|) && p < |xs|
    ensures Take(xs, positions + [p]) == Take(xs, positions) + [xs[p]]
  {
  }

  lemma RowsOfSnoc<S, P>(rows: seq<Row<S, P>>, row: Row<S, P>, subjects: set<S>)
    ensures RowsOf(rows + [row], subjects) == RowsOf(rows, subjects) + if row.subject in subjects then [row] else []
  {
    assert (rows + [row])[..|rows|] == rows;
  }

  lemma KeepSnoc<T>(xs: seq<T>, x: T, wanted: set<T>)
    ensures Keep(xs + [x], wanted) == Keep(xs, wanted) + if x in wanted then [x] else []
  {
    assert (xs + [x])[..|xs|] == xs;
  }

  lemma SubjectIdsSnoc<S, P>(rows: seq<Row<S, P>>, row: Row<S, P>)
    ensures SubjectIds(rows + [row]) == SubjectIds(rows) + [row.subject]
  {
  }

  lemma {:induction false} SubjectsOfRowsOf<S(!new), P>(rows: seq<Row<S, P>>, subjects: set<S>)
    ensures Distinct(SubjectIds(RowsOf(rows, subjects))) == Keep(Distinct(SubjectIds(rows)), subjects)
  {
    if rows != [] {
      var init, last := rows[..|rows| - 1], rows[|rows| - 1];
      assert rows == init + [last];
      SubjectsOfRowsOf(init, subjects);
      SubjectsOfRowsOfSnoc(init, last, subjects);
    }
  }

  lemma SubjectsOfRowsOfSnoc<S(!new), P>(init: seq<Row<S, P>>, last: Row<S, P>, subjects: set<S>)
    requires Distinct(SubjectIds(RowsOf(init, subjects))) == Keep(Distinct(SubjectIds(init)), subjects)
    ensures Distinct(SubjectIds(RowsOf(init + [last], subjects))) == Keep(Distinct(SubjectIds(init + [last])), subjects)
  {
    var kept, d := RowsOf(init, subjects), Distinct(SubjectIds(init));
    RowsOfSnoc(init, last, subjects);
    SubjectIdsSnoc(init, last);
    DistinctSnoc(SubjectIds(init), last.subject);
    KeepSnoc(d, last.subject, subjects);
    if last.subject in subjects {
      SubjectIdsSnoc(kept, last);
      DistinctSnoc(SubjectIds(kept), last.subject);
      KeepMembers(d, subjects);
      assert last.subject in Keep(d, subjects) <==> last.subject in d;
    } else {
      assert kept + [] == kept;
    }
  }

  lemma {:induction false} KeepMembers<T>(xs: seq<T>, wanted: set<T>)
    ensures forall x :: x in Keep(xs, wanted) <==> x in xs && x in wanted
  {
    if xs != [] {
      KeepMembers(xs[..|xs| - 1], wanted);
      assert xs == xs[..|xs| - 1] + [xs[|xs| - 1]];
    }
  }

  lemma {:induction false} KeepAll<T>(xs: seq<T>, wanted: set<T>)
    requires forall x :: x in xs ==> x in wanted
    ensures Keep(xs, wanted) == xs
  {
    if xs != [] {
      KeepAll(xs[..|xs| - 1], wanted);
    }
  }

  lemma {:induction false} KeepNone<T>(xs: seq<T>, wanted: set<T>)
    requires forall x :: x in xs ==> x !in wanted
    ensures Keep(xs, wanted) == []
  {
    if xs != [] {
      KeepNone(xs[..|xs| - 1], wanted);
    }
  }

  lemma {:induction false} KeepAppend<T>(a: seq<T>, b: seq<T>, wanted: set<T>)
    ensures Keep(a + b, wanted) == Keep(a, wanted) + Keep(b, wanted)
  {
    if b == [] {
      assert a + b == a;
    } else {
      var init, last := b[..|b| - 1], b[|b| - 1];
      calc {
        Keep(a + b, wanted);
        { assert a + b == (a + init) + [last]; KeepSnoc(a + init, last, wanted); }
        Keep(a + init, wanted) + if last in wanted then [last] else [];
        { KeepAppend(a, init, wanted); }
        Keep(a, wanted) + (Keep(init, wanted) + if last in wanted then [last] else []);
      }
    }
  }

  lemma Outside<T>(xs: seq<T>, lo: nat, hi: nat)
    requires NoDuplicates(xs) && lo <= hi <= |xs|
    ensures forall x :: x in xs[..lo] || x in xs[hi..] ==> x !in xs[lo..hi]
  {
  }

  lemma KeepMiddle<T>(a: seq<T>, b: seq<T>, c: seq<T>, wanted: set<T>)
    requires forall x :: x in a || x in c ==> x !in wanted
    requires forall x :: x in b ==> x in wanted
    ensures Keep(a + b + c, wanted) == b
  {
    KeepNone(a, wanted);
    KeepAll(b, wanted);
    KeepNone(c, wanted);
    KeepAppend(a, b, wanted);
    KeepAppend(a + b, c, wanted);
  }

  lemma KeepStretch<T>(xs: seq<T>, lo: nat, hi: nat)
    requires NoDuplicates(xs) && lo <= hi <= |xs|
    ensures Keep(xs, Elements(xs[lo..hi])) == xs[lo..hi]
  {
    Outside(xs, lo, hi);
    KeepMiddle(xs[..lo], xs[lo..hi], xs[hi..], Elements(xs[lo..hi]));
    Stretches(xs, lo, hi);
  }

  /** The distinct subjects of chunk `c` are its block of subjects. */
  lemma ChunkHasItsSubjects<S(!new), P>(sar: seq<Row<S, P>>, k: nat, c: nat)
    requires c < k
    ensures Distinct(SubjectIds(SplitData(sar, k, c))) == ChunkSubjects(SubjectIds(sar), k, c)
  {
    ChunkIsRowsOfSubjects(sar, k, c);
    SubjectsOfRowsOf(sar, Elements(ChunkSubjects(SubjectIds(sar), k, c)));
    KeepBlock(SubjectIds(sar), k, c);
  }

  lemma KeepBlock<S(!new)>(ids: seq<S>, k: nat, c: nat)
    requires c < k
    ensures Keep(Distinct(ids), Elements(ChunkSubjects(ids, k, c))) == ChunkSubjects(ids, k, c)
  {
    var n := |Distinct(ids)|;
    BlockBounds(n, k, c);
    KeepStretch(Distinct(ids), BlockStart(n, k, c), BlockStart(n, k, c + 1));
  }

  lemma {:induction false} RowsOfRowsOf<S, P>(rows: seq<Row<S, P>>, subjects: set<S>, s: S)
    requires s in subjects
    ensures RowsOf(RowsOf(rows, subjects), {s}) == RowsOf(rows, {s})
  {
    if rows != [] {
      var init, last := rows[..|rows| - 1], rows[|rows| - 1];
      assert rows == init + [last];
      RowsOfRowsOf(init, subjects, s);
      RowsOfSnoc(init, last, subjects);
      RowsOfSnoc(init, last, {s});
      if last.subject in subjects {
        RowsOfSnoc(RowsOf(init, subjects), last, {s});
      } else {
        assert RowsOf(rows, subjects) == RowsOf(init, subjects);
      }
    }
  }

  // ---- chunked lookups -----------------------------------------------------

  /** The outputs of looking up each subject's rows on their own, in the order given. */
  function LookupEach<S(==), P, K>(rows: seq<Row<S, P>>, subjects: seq<S>, one: seq<Row<S, P>> -> seq<K>): seq<K> {
    if subjects == [] then []
    else
      var last := |subjects| - 1;
      LookupEach(rows, subjects[..last], one) + one(RowsOf(rows, {subjects[last]}))
  }

  /** A lookup that works subject by subject, in order of first appearance. */
  ghost predicate SubjectBySubject<S(!new), P(!new), K>(lookup: seq<Row<S, P>> -> seq<K>, one: seq<Row<S, P>> -> seq<K>) {
    forall rows :: lookup(rows) == LookupEach(rows, Distinct(SubjectIds(rows)), one)
  }

  /** What lookup chunk `c` writes: nothing at all for an empty chunk, which is skipped. */
  function ChunkOutput<S(==,!new), P, K>(sar: seq<Row<S, P>>, k: nat, lookup: seq<Row<S, P>> -> seq<K>, c: nat): seq<K>
    requires c < k
  {
    var rows := SplitData(sar, k, c);
    if rows == [] then [] else lookup(rows)
  }

  function ChunkOutputs<S(==,!new), P, K>(sar: seq<Row<S, P>>, k: nat, lookup: seq<Row<S, P>> -> seq<K>): (outs: seq<seq<K>>)
    ensures |outs| == k
  {
    seq(k, c requires 0 <= c < k => ChunkOutput(sar, k, lookup, c))
  }

  lemma {:induction false} LookupEachIn<S(!new), P, K>(
      sar: seq<Row<S, P>>, within: set<S>, subjects: seq<S>, one: seq<Row<S, P>> -> seq<K>)
    requires forall s :: s in subjects ==> s in within
    ensures LookupEach(RowsOf(sar, within), subjects, one) == LookupEach(sar, subjects, one)
  {
    if subjects != [] {
      LookupEachIn(sar, within, subjects[..|subjects| - 1], one);
      RowsOfRowsOf(sar, within, subjects[|subjects| - 1]);
    }
  }

  lemma ChunkOutputIsItsSubjects<S(!new), P(!new), K>(
      sar: seq<Row<S, P>>, k: nat, lookup: seq<Row<S, P>> -> seq<K>, one: seq<Row<S, P>> -> seq<K>, c: nat)
    requires c < k && SubjectBySubject(lookup, one)
    ensures ChunkOutput(sar, k, lookup, c) == LookupEach(sar, ChunkSubjects(SubjectIds(sar), k, c), one)
  {
    var rows := SplitData(sar, k, c);
    var block := ChunkSubjects(SubjectIds(sar), k, c);
    ChunkHasItsSubjects(sar, k, c);
    ChunkIsRowsOfSubjects(sar, k, c);
    LookupEachIn(sar, Elements(block), block, one);
    if rows != [] {
      assert lookup(rows) == LookupEach(rows, block, one);
    }
  }

  lemma LookupEachSnoc<S(!new), P, K>(sar: seq<Row<S, P>>, a: seq<S>, s: S, one: seq<Row<S, P>> -> seq<K>)
    ensures LookupEach(sar, a + [s], one) == LookupEach(sar, a, one) + one(RowsOf(sar, {s}))
  {
    assert (a + [s])[..|a|] == a;
  }

  lemma {:induction false} LookupEachAppend<S(!new), P, K>(
      sar: seq<Row<S, P>>, a: seq<S>, b: seq<S>, one: seq<Row<S, P>> -> seq<K>)
    ensures LookupEach(sar, a + b, one) == LookupEach(sar, a, one) + LookupEach(sar, b, one)
  {
    if b == [] {
      assert a + b == a;
    } else {
      var init, last := b[..|b| - 1], b[|b| - 1];
      LookupEachAppend(sar, a, init, one);
      Regroup(a, init, [last], []);
      LookupEachSnoc(sar, a + init, last, one);
      LookupEachSnoc(sar, init, last, one);
      Regroup(LookupEach(sar, a, one), LookupEach(sar, init, one), one(RowsOf(sar, {last})), []);
      assert b == init + [last];
    }
  }

  lemma {:induction false} ChunkOutputsPrefix<S(!new), P(!new), K>(
      sar: seq<Row<S, P>>, k: nat, lookup: seq<Row<S, P>> -> seq<K>, one: seq<Row<S, P>> -> seq<K>, m: nat)
    requires 0 < k && m <= k && SubjectBySubject(lookup, one)
    ensures BlockStart(|Distinct(SubjectIds(sar))|, k, m) <= |Distinct(SubjectIds(sar))|
    ensures Flatten(ChunkOutputs(sar, k, lookup)[..m])
         == LookupEach(sar, Distinct(SubjectIds(sar))[..BlockStart(|Distinct(SubjectIds(sar))|, k, m)], one)
  {
    var d := Distinct(SubjectIds(sar));
    var outs := ChunkOutputs(sar, k, lookup);
    if m == 0 {
      BlockBounds(|d|, k, 0);
    } else {
      ChunkOutputsPrefix(sar, k, lookup, one, m - 1);
      BlockBounds(|d|, k, m - 1);
      ChunkOutputIsItsSubjects(sar, k, lookup, one, m - 1);
      FlattenSnoc(outs[..m - 1], outs[m - 1]);
      PrefixStep(outs, m);
      var lo, hi := BlockStart(|d|, k, m - 1), BlockStart(|d|, k, m);
      LookupEachAppend(sar, d[..lo], d[lo..hi], one);
      Stretches(d, lo, hi);
    }
  }

  /** Concatenating the chunk outputs in chunk order is the lookup of the whole exposure, for
      every number of chunks. */
  lemma ChunkedLookupIsWholeLookup<S(!new), P(!new), K>(
      sar: seq<Row<S, P>>, k: nat, lookup: seq<Row<S, P>> -> seq<K>, one: seq<Row<S, P>> -> seq<K>)
    requires 0 < k && SubjectBySubject(lookup, one)
    ensures Flatten(ChunkOutputs(sar, k, lookup)) == lookup(sar)
  {
    var d := Distinct(SubjectIds(sar));
    ChunkOutputsPrefix(sar, k, lookup, one, k);
    BlockBounds(|d|, k, 0);
    assert d[..|d|] == d;
    assert ChunkOutputs(sar, k, lookup)[..k] == ChunkOutputs(sar, k, lookup);
  }

  // ---- merging the chunk files ---------------------------------------------

  /** One `lookup-<number>/keys.*` file; `None` when it is empty or unreadable. */
  datatype ChunkFile<K> = ChunkFile(number: nat, content: Option<seq<K>>)

  function Numbers<K>(files: seq<ChunkFile<K>>): (ns: seq<nat>)
    ensures |ns| == |files|
  {
    seq(|files|, i requires 0 <= i < |files| => files[i].number)
  }

  /** `natsorted` on the `lookup-<number>` directories. */
  function NatSorted<K>(files: seq<ChunkFile<K>>): (sorted: seq<ChunkFile<K>>)
    ensures |sorted| == |files|
  {
    var order := StableArgsort(Numbers(files));
    seq(|files|, i requires 0 <= i < |files| => files[order[i]])
  }

  function Contents<K>(files: seq<ChunkFile<K>>): seq<K> {
    if files == [] then []
    else Contents(files[..|files| - 1]) + files[|files| - 1].content.GetOr([])
  }

  /** The merge of the files in the order given: skip the unusable ones, concatenate the others,
      keep the first of equal rows. No file is written when none is usable. */
  method MergeStreaming<K(==,!new)>(files: seq<ChunkFile<K>>) returns (merged: Option<seq<K>>)
    ensures merged.None? <==> forall f :: f in files ==> f.content.None?
    ensures merged.Some? ==> merged.value == Distinct(Contents(files))
    ensures merged.None? ==> Contents(files) == []
  {
    var usable, rows := false, [];
    for i := 0 to |files|
      invariant usable <==> exists j :: 0 <= j < i && files[j].content.Some?
      invariant rows == Contents(files[..i])
      invariant !usable ==> rows == []
    {
      assert files[..i + 1][..i] == files[..i];
      if files[i].content.Some? {
        usable, rows := true, rows + files[i].content.value;
      }
    }
    assert files[..|files|] == files;
    merged := if usable then Some(Distinct(rows)) else None;
  }

  /** `files` are the files that chunks with these outputs leave behind, listed in any order: a
      chunk may leave no file, or an unusable one, only when it has no output. */
  ghost predicate LeftBy<K>(files: seq<ChunkFile<K>>, outs: seq<seq<K>>) {
    && (forall i, j :: 0 <= i < j < |files| ==> files[i].number != files[j].number)
    && (forall i :: 0 <= i < |files| ==> FileOf(files[i], outs))
    && (forall c :: 0 <= c < |outs| && outs[c] != [] ==> HasFile(files, c + 1))
  }

  ghost predicate FileOf<K>(file: ChunkFile<K>, outs: seq<seq<K>>) {
    0 < file.number <= |outs| && file.content.GetOr([]) == outs[file.number - 1]
  }

  ghost predicate HasFile<K>(files: seq<ChunkFile<K>>, number: nat) {
    exists i :: 0 <= i < |files| && files[i].number == number
  }

  ghost predicate Ascending<K>(files: seq<ChunkFile<K>>) {
    forall i, j :: 0 <= i < j < |files| ==> files[i].number < files[j].number
  }

  lemma NatSortedLeftBy<K>(files: seq<ChunkFile<K>>, outs: seq<seq<K>>)
    requires LeftBy(files, outs)
    ensures LeftBy(NatSorted(files), outs) && Ascending(NatSorted(files))
  {
    ReorderedLeftBy(files, outs, StableArgsort(Numbers(files)), NatSorted(files));
  }

  lemma ReorderedLeftBy<K>(files: seq<ChunkFile<K>>, outs: seq<seq<K>>, order: seq<nat>, sorted: seq<ChunkFile<K>>)
    requires LeftBy(files, outs) && IsStableArgsort(Numbers(files), order)
    requires |sorted| == |files| && forall i :: 0 <= i < |files| ==> sorted[i] == files[order[i]]
    ensures LeftBy(sorted, outs) && Ascending(sorted)
  {
    forall i, j | 0 <= i < j < |sorted|
      ensures sorted[i].number < sorted[j].number
    {
      assert Before(Numbers(files), order[i], order[j]);
    }
    forall c | 0 <= c < |outs| && outs[c] != []
      ensures HasFile(sorted, c + 1)
    {
      assert HasFile(files, c + 1);
      var f: nat :| f < |files| && files[f].number == c + 1;
      assert f in order;
      var i :| 0 <= i < |order| && order[i] == f;
      assert sorted[i].number == c + 1;
    }
  }

  lemma {:induction false} ContentsAreOutputs<K>(files: seq<ChunkFile<K>>, outs: seq<seq<K>>)
    requires LeftBy(files, outs) && Ascending(files)
    ensures Contents(files) == Flatten(outs)
    decreases |outs|
  {
    if outs != [] {
      var init, last := outs[..|outs| - 1], outs[|outs| - 1];
      FlattenSnoc(init, last);
      assert outs == init + [last];
      if HasFile(files, |outs|) {
        LastFileLeftBy(files, outs);
        ContentsAreOutputs(files[..|files| - 1], init);
      } else {
        LastChunkLeftNothing(files, outs);
        ContentsAreOutputs(files, init);
      }
    }
  }

  lemma LastFileLeftBy<K>(files: seq<ChunkFile<K>>, outs: seq<seq<K>>)
    requires LeftBy(files, outs) && Ascending(files)
    requires outs != [] && HasFile(files, |outs|)
    ensures files != [] && files[|files| - 1].content.GetOr([]) == outs[|outs| - 1]
    ensures LeftBy(files[..|files| - 1], outs[..|outs| - 1]) && Ascending(files[..|files| - 1])
  {
  }

  lemma LastChunkLeftNothing<K>(files: seq<ChunkFile<K>>, outs: seq<seq<K>>)
    requires LeftBy(files, outs)
    requires outs != [] && !HasFile(files, |outs|)
    ensures LeftBy(files, outs[..|outs| - 1]) && outs[|outs| - 1] == []
  {
  }

  /** Chunk, look up, merge preserves meaning: whatever order the chunk files are listed in, the
      merged keys are the deduplicated keys of the whole exposure. */
  lemma MergedLookupIsWholeLookup<S(!new), P(!new), K(!new)>(
      sar: seq<Row<S, P>>, k: nat, lookup: seq<Row<S, P>> -> seq<K>, one: seq<Row<S, P>> -> seq<K>, files: seq<ChunkFile<K>>)
    requires 0 < k && SubjectBySubject(lookup, one)
    requires LeftBy(files, ChunkOutputs(sar, k, lookup))
    ensures Distinct(Contents(NatSorted(files))) == Distinct(lookup(sar))
  {
    ChunkedLookupIsWholeLookup(sar, k, lookup, one);
    NatSortedLeftBy(files, ChunkOutputs(sar, k, lookup));
    ContentsAreOutputs(NatSorted(files), ChunkOutputs(sar, k, lookup));
  }

  // ---- row-wise lookups ----------------------------------------------------

  function LookupRows<R, K>(rows: seq<R>, f: R -> seq<K>): seq<K> {
    if rows == [] then []
    else LookupRows(rows[..|rows| - 1], f) + f(rows[|rows| - 1])
  }

  /** A lookup that works row by row. */
  ghost predicate RowByRow<R(!new), K>(lookup: seq<R> -> seq<K>, f: R -> seq<K>) {
    forall rows :: lookup(rows) == LookupRows(rows, f)
  }

  lemma {:induction false} LookupRowsMembers<R, K>(rows: seq<R>, f: R -> seq<K>, x: K)
    ensures x in LookupRows(rows, f) <==> exists i :: 0 <= i < |rows| && x in f(rows[i])
  {
    if rows != [] {
      LookupRowsMembers(rows[..|rows| - 1], f, x);
    }
  }

  lemma RowOutput<S(!new), P(!new), K>(
      sar: seq<Row<S, P>>, k: nat, lookup: seq<Row<S, P>> -> seq<K>, f: Row<S, P> -> seq<K>, c: nat)
    requires c < k && RowByRow(lookup, f)
    ensures ChunkOutput(sar, k, lookup, c) == LookupRows(SplitData(sar, k, c), f)
  {
  }

  /** No later row belongs to an earlier chunk. */
  ghost predicate ChunksInRowOrder<S(!new)>(ids: seq<S>, k: nat)
    requires 0 < k
  {
    NonDecreasing(RowChunks(ids, k))
  }

  /** The chunks put end to end keep the rows in their original order exactly when no later row
      belongs to an earlier chunk. */
  lemma ChunksKeepRowOrder<S(!new)>(ids: seq<S>, k: nat)
    requires 0 < k
    ensures Flatten(ChunkRows(ids, k)) == Range(|ids|) <==> ChunksInRowOrder(ids, k)
  {
    PiecesInOrder(RowChunks(ids, k), k);
    ArgsortIsIdentity(RowChunks(ids, k), StableArgsort(RowChunks(ids, k)));
  }

  lemma {:induction false} LookupRowsAppend<R, K>(a: seq<R>, b: seq<R>, f: R -> seq<K>)
    ensures LookupRows(a + b, f) == LookupRows(a, f) + LookupRows(b, f)
  {
    if b == [] {
      assert a + b == a;
    } else {
      LookupRowsAppend(a, b[..|b| - 1], f);
      assert (a + b)[..|a + b| - 1] == a + b[..|b| - 1];
    }
  }

  /** All the rows, sorted by chunk: what the chunks hold, end to end. */
  function ChunkedRows<S(==,!new), P>(sar: seq<Row<S, P>>, k: nat): (rows: seq<Row<S, P>>)
    requires 0 < k
    ensures |rows| == |sar|
  {
    var order := StableArgsort(RowChunks(SubjectIds(sar), k));
    Take(sar, order)
  }

  lemma TakeAppend<T>(xs: seq<T>, a: seq<nat>, b: seq<nat>)
    requires Within(a, |xs|) && Within(b, |xs|)
    ensures Take(xs, a + b) == Take(xs, a) + Take(xs, b)
  {
  }

  /** `out` is the lookup of the rows at the positions. */
  ghost predicate LookedUp<S, P, K>(sar: seq<Row<S, P>>, positions: seq<nat>, f: Row<S, P> -> seq<K>, out: seq<K>) {
    Within(positions, |sar|) && out == LookupRows(Take(sar, positions), f)
  }

  lemma {:induction false} RowOutputsPrefix<S(!new), P(!new), K>(
      sar: seq<Row<S, P>>, k: nat, lookup: seq<Row<S, P>> -> seq<K>, f: Row<S, P> -> seq<K>, m: nat)
    requires 0 < k && m <= k && RowByRow(lookup, f)
    ensures LookedUp(sar, Flatten(ChunkRows(SubjectIds(sar), k)[..m]), f, Flatten(ChunkOutputs(sar, k, lookup)[..m]))
  {
    var outs, pieces := ChunkOutputs(sar, k, lookup), ChunkRows(SubjectIds(sar), k);
    if m > 0 {
      RowOutputsPrefix(sar, k, lookup, f, m - 1);
      RowOutput(sar, k, lookup, f, m - 1);
      ChunkPositionsExist(SubjectIds(sar), k, m - 1);
      OneMoreOutput(sar, outs, pieces, f, m - 1);
    }
  }

  lemma OneMoreOutput<S, P, K>(
      sar: seq<Row<S, P>>, outs: seq<seq<K>>, pieces: seq<seq<nat>>, f: Row<S, P> -> seq<K>, m: nat)
    requires m < |outs| == |pieces|
    requires LookedUp(sar, Flatten(pieces[..m]), f, Flatten(outs[..m])) && LookedUp(sar, pieces[m], f, outs[m])
    ensures LookedUp(sar, Flatten(pieces[..m + 1]), f, Flatten(outs[..m + 1]))
  {
    PrefixStep(outs, m + 1);
    PrefixStep(pieces, m + 1);
    FlattenSnoc(outs[..m], outs[m]);
    FlattenSnoc(pieces[..m], pieces[m]);
    TakeAppend(sar, Flatten(pieces[..m]), pieces[m]);
    LookupRowsAppend(Take(sar, Flatten(pieces[..m])), Take(sar, pieces[m]), f);
  }

  /** A row-wise lookup of the chunks, end to end, is the lookup of the rows sorted by chunk. */
  lemma RowLookupOfSortedRows<S(!new), P(!new), K>(
      sar: seq<Row<S, P>>, k: nat, lookup: seq<Row<S, P>> -> seq<K>, f: Row<S, P> -> seq<K>)
    requires 0 < k && RowByRow(lookup, f)
    ensures Flatten(ChunkOutputs(sar, k, lookup)) == lookup(ChunkedRows(sar, k))
  {
    RowOutputsPrefix(sar, k, lookup, f, k);
    assert ChunkOutputs(sar, k, lookup)[..k] == ChunkOutputs(sar, k, lookup);
    assert ChunkRows(SubjectIds(sar), k)[..k] == ChunkRows(SubjectIds(sar), k);
    PiecesInOrder(RowChunks(SubjectIds(sar), k), k);
  }

  lemma ChunkedRowsMembers<S(!new), P>(sar: seq<Row<S, P>>, k: nat, row: Row<S, P>)
    requires 0 < k
    ensures row in ChunkedRows(sar, k) <==> row in sar
  {
    var order := StableArgsort(RowChunks(SubjectIds(sar), k));
    if row in sar {
      var p: nat :| p < |sar| && sar[p] == row;
      assert p in order;
      var i :| 0 <= i < |order| && order[i] == p;
      assert ChunkedRows(sar, k)[i] == row;
    }
  }

  /** A purely row-wise lookup merges to the same distinct keys; `MergedRowsInOrderIff` says when they
      may come in another order. */
  lemma MergedRowLookupHasSameKeys<S(!new), P(!new), K(!new)>(
      sar: seq<Row<S, P>>, k: nat, lookup: seq<Row<S, P>> -> seq<K>, f: Row<S, P> -> seq<K>,
      files: seq<ChunkFile<K>>, x: K)
    requires 0 < k && RowByRow(lookup, f) && LeftBy(files, ChunkOutputs(sar, k, lookup))
    ensures x in Distinct(Contents(NatSorted(files))) <==> x in Distinct(lookup(sar))
  {
    NatSortedLeftBy(files, ChunkOutputs(sar, k, lookup));
    ContentsAreOutputs(NatSorted(files), ChunkOutputs(sar, k, lookup));
    RowLookupOfSortedRows(sar, k, lookup, f);
    forall row { ChunkedRowsMembers(sar, k, row); }
    SameRowsSameKeys(sar, ChunkedRows(sar, k), f, x);
  }

  lemma SameRowsSameKeys<R, K>(a: seq<R>, b: seq<R>, f: R -> seq<K>, x: K)
    requires forall row :: row in a <==> row in b
    ensures x in LookupRows(a, f) <==> x in LookupRows(b, f)
  {
    LookupRowsMembers(a, f, x);
    LookupRowsMembers(b, f, x);
    if i :| 0 <= i < |a| && x in f(a[i]) { assert a[i] in b; }
    if i :| 0 <= i < |b| && x in f(b[i]) { assert b[i] in a; }
  }

  lemma SameSubjectSameChunk<S(!new)>(ids: seq<S>, k: nat, i: nat, j: nat)
    requires 0 < k && i < |ids| && j < |ids| && ids[i] == ids[j]
    ensures RowChunks(ids, k)[i] == RowChunks(ids, k)[j]
  {
    var c := RowChunks(ids, k)[i];
    assert InBlock(|Distinct(ids)|, k, Rank(ids, i), c) && Rank(ids, i) == Rank(ids, j);
  }

  /** Sorting the rows by chunk changes nothing exactly when no later row belongs to an earlier chunk. */
  lemma ChunkedRowsInOrder<S(!new), P>(sar: seq<Row<S, P>>, k: nat)
    requires 0 < k
    ensures ChunkedRows(sar, k) == sar <==> ChunksInRowOrder(SubjectIds(sar), k)
  {
    var ids := SubjectIds(sar);
    var keys := RowChunks(ids, k);
    var order := StableArgsort(keys);
    ArgsortIsIdentity(keys, order);
    if ChunkedRows(sar, k) == sar {
      forall i, j | 0 <= i < j < |keys|
        ensures keys[i] <= keys[j]
      {
        assert Before(keys, order[i], order[j]);
        assert ids[order[i]] == ids[i] && ids[order[j]] == ids[j] by {
          assert ChunkedRows(sar, k)[i] == sar[order[i]] && ChunkedRows(sar, k)[j] == sar[order[j]];
        }
        SameSubjectSameChunk(ids, k, order[i], i);
        SameSubjectSameChunk(ids, k, order[j], j);
      }
    }
  }

  /** When no later row belongs to an earlier chunk, a row-wise lookup merges to the keys of the whole
      exposure in their order. */
  lemma MergedRowLookupInOrder<S(!new), P(!new), K(!new)>(
      sar: seq<Row<S, P>>, k: nat, lookup: seq<Row<S, P>> -> seq<K>, f: Row<S, P> -> seq<K>, files: seq<ChunkFile<K>>)
    requires 0 < k && RowByRow(lookup, f) && LeftBy(files, ChunkOutputs(sar, k, lookup))
    requires ChunksInRowOrder(SubjectIds(sar), k)
    ensures Flatten(ChunkOutputs(sar, k, lookup)) == lookup(sar)
    ensures Distinct(Contents(NatSorted(files))) == Distinct(lookup(sar))
  {
    RowLookupOfSortedRows(sar, k, lookup, f);
    ChunkedRowsInOrder(sar, k);
    NatSortedLeftBy(files, ChunkOutputs(sar, k, lookup));
    ContentsAreOutputs(NatSorted(files), ChunkOutputs(sar, k, lookup));
  }

  lemma {:induction false} LookupRowsItself<R>(rows: seq<R>, f: R -> seq<R>)
    requires forall r :: f(r) == [r]
    ensures LookupRows(rows, f) == rows
  {
    if rows != [] {
      LookupRowsItself(rows[..|rows| - 1], f);
    }
  }

  /** Only then: the lookup that returns each row itself, on rows that all differ, merges to the keys in
      their order exactly when no later row belongs to an earlier chunk. */
  lemma MergedRowsInOrderIff<S(!new), P(!new)>(
      sar: seq<Row<S, P>>, k: nat, lookup: seq<Row<S, P>> -> seq<Row<S, P>>, f: Row<S, P> -> seq<Row<S, P>>,
      files: seq<ChunkFile<Row<S, P>>>)
    requires 0 < k && RowByRow(lookup, f) && LeftBy(files, ChunkOutputs(sar, k, lookup))
    requires NoDuplicates(sar) && forall row :: f(row) == [row]
    ensures Distinct(Contents(NatSorted(files))) == Distinct(lookup(sar)) <==> ChunksInRowOrder(SubjectIds(sar), k)
  {
    var rows := ChunkedRows(sar, k);
    RowLookupOfSortedRows(sar, k, lookup, f);
    NatSortedLeftBy(files, ChunkOutputs(sar, k, lookup));
    ContentsAreOutputs(NatSorted(files), ChunkOutputs(sar, k, lookup));
    LookupRowsItself(rows, f);
    LookupRowsItself(sar, f);
    DistinctWhole(sar);
    DistinctWhole(rows);
    ChunkedRowsInOrder(sar, k);
  }

  /** Three rows, the first and last of one subject, in two chunks: the merge puts the last before the
      second. */
  lemma InterleavedSubjectsReorder<P(!new)>(
      sar: seq<Row<nat, P>>, lookup: seq<Row<nat, P>> -> seq<Row<nat, P>>, f: Row<nat, P> -> seq<Row<nat, P>>,
      files: seq<ChunkFile<Row<nat, P>>>)
    requires |sar| == 3 && sar[0].subject == sar[2].subject != sar[1].subject && NoDuplicates(sar)
    requires RowByRow(lookup, f) && (forall row :: f(row) == [row]) && LeftBy(files, ChunkOutputs(sar, 2, lookup))
    ensures Distinct(Contents(NatSorted(files))) != Distinct(lookup(sar))
  {
    TwoSubjects(SubjectIds(sar));
    MergedRowsInOrderIff(sar, 2, lookup, f, files);
  }

  /** The files of chunks that all write one. */
  function AllFiles<K>(outs: seq<seq<K>>): seq<ChunkFile<K>> {
    seq(|outs|, c requires 0 <= c < |outs| => ChunkFile(c + 1, Some(outs[c])))
  }

  lemma AllFilesLeftBy<K>(outs: seq<seq<K>>)
    ensures LeftBy(AllFiles(outs), outs)
  {
    forall c | 0 <= c < |outs| && outs[c] != []
      ensures HasFile(AllFiles(outs), c + 1)
    {
      assert AllFiles(outs)[c].number == c + 1;
    }
  }

  function Itself(rows: seq<Row<nat, nat>>): seq<Row<nat, nat>> {
    rows
  }

  lemma ItselfIsRowByRow(f: Row<nat, nat> -> seq<Row<nat, nat>>)
    requires forall row :: f(row) == [row]
    ensures RowByRow(Itself, f)
  {
    forall rows: seq<Row<nat, nat>> { LookupRowsItself(rows, f); }
  }

  /** Such rows, looked up as themselves. */
  lemma ThreeRowsReordered()
    ensures
      var sar: seq<Row<nat, nat>> := [Row(7, 0), Row(8, 1), Row(7, 2)];
      Distinct(Contents(NatSorted(AllFiles(ChunkOutputs(sar, 2, Itself))))) != Distinct(Itself(sar))
  {
    var sar: seq<Row<nat, nat>> := [Row(7, 0), Row(8, 1), Row(7, 2)];
    var f: Row<nat, nat> -> seq<Row<nat, nat>> := row => [row];
    ItselfIsRowByRow(f);
    AllFilesLeftBy(ChunkOutputs(sar, 2, Itself));
    InterleavedSubjectsReorder(sar, Itself, f, AllFiles(ChunkOutputs(sar, 2, Itself)));
  }

  lemma TwoSubjects(ids: seq<nat>)
    requires |ids| == 3 && ids[0] == ids[2] != ids[1]
    ensures !ChunksInRowOrder(ids, 2)
  {
    TwoDistinct(ids);
    IndexOfIs(Distinct(ids), 0);
    IndexOfIs(Distinct(ids), 1);
    assert Distinct(ids)[0] == ids[2] && Distinct(ids)[1] == ids[1];
    assert Rank(ids, 1) == 1 && Rank(ids, 2) == 0;
    assert InBlock(2, 2, 1, 1) && InBlock(2, 2, 0, 0);
    assert RowChunks(ids, 2)[1] == 1 && RowChunks(ids, 2)[2] == 0;
  }

  lemma TwoDistinct(ids: seq<nat>)
    requires |ids| == 3 && ids[0] == ids[2] != ids[1]
    ensures Distinct(ids) == [ids[0]] + [ids[1]]
  {
    PairDistinct(ids[0], ids[1]);
    DistinctSnoc([ids[0]] + [ids[1]], ids[2]);
    assert ids == [ids[0]] + [ids[1]] + [ids[2]];
    assert ([ids[0]] + [ids[1]])[0] == ids[2];
  }

  lemma PairDistinct(a: nat, b: nat)
    requires a != b
    ensures Distinct([a] + [b]) == [a] + [b]
  {
    DistinctSnoc([], a);
    assert [] + [a] == [a];
    DistinctSnoc([a], b);
  }

  function Range(n: nat): seq<nat> {
    seq(n, i requires 0 <= i => i)
  }

  lemma PiecesInOrder(keys: seq<nat>, k: nat)
    requires 0 < k
    ensures Flatten(SplitByKey(keys, k)) == StableArgsort(keys)
  {
    FlattenSplit(StableArgsort(keys), Cuts(SortedKeys(keys, StableArgsort(keys)), k));
  }

  lemma ArgsortIsIdentity(keys: seq<nat>, rows: seq<nat>)
    requires IsStableArgsort(keys, rows)
    ensures rows == Range(|keys|) <==> forall i, j :: 0 <= i < j < |keys| ==> keys[i] <= keys[j]
  {
    if rows == Range(|keys|) {
      forall i, j | 0 <= i < j < |keys|
        ensures keys[i] <= keys[j]
      {
        assert Before(keys, rows[i], rows[j]);
      }
    }
    if forall i, j :: 0 <= i < j < |keys| ==> keys[i] <= keys[j] {
      SortedArgsort(keys, rows);
      IncreasingUnique(rows, Range(|keys|));
    }
  }

  lemma SortedArgsort(keys: seq<nat>, rows: seq<nat>)
    requires IsStableArgsort(keys, rows)
    requires forall i, j :: 0 <= i < j < |keys| ==> keys[i] <= keys[j]
    ensures StrictlyIncreasing(rows)
    ensures forall x: nat :: x in rows <==> x in Range(|keys|)
  {
    forall a, b | 0 <= a < b < |rows|
      ensures rows[a] < rows[b]
    {
      assert Before(keys, rows[a], rows[b]);
    }
    forall x: nat | x < |keys|
      ensures x in Range(|keys|)
    {
      assert Range(|keys|)[x] == x;
    }
  }

  lemma SlicePrefix<T>(xs: seq<T>, cut: nat, lo: nat, hi: nat)
    requires lo <= hi <= cut <= |xs|
    ensures xs[..cut][lo..hi] == xs[lo..hi]
  {
  }

  /** Splitting at one more bound cuts the last piece in two. */
  lemma SplitSnoc<T>(xs: seq<T>, bounds: seq<nat>, cut: nat)
    requires forall i :: 0 <= i < |bounds| ==> bounds[i] <= cut
    requires NonDecreasing(bounds) && cut <= |xs|
    ensures NonDecreasing(bounds + [cut])
    ensures Split(xs, bounds + [cut]) == Split(xs[..cut], bounds) + [xs[cut..]]
  {
    forall j | 0 <= j <= |bounds|
      ensures SplitPiece(xs, bounds + [cut], j) == SplitPiece(xs[..cut], bounds, j)
    {
      SlicePrefix(xs, cut, if j == 0 then 0 else bounds[j - 1], if j == |bounds| then cut else bounds[j]);
    }
    assert SplitPiece(xs, bounds + [cut], |bounds| + 1) == xs[cut..];
  }

  lemma {:induction false} FlattenSplit<T>(xs: seq<T>, bounds: seq<nat>)
    requires forall i :: 0 <= i < |bounds| ==> bounds[i] <= |xs|
    requires NonDecreasing(bounds)
    ensures Flatten(Split(xs, bounds)) == xs
    decreases |bounds|
  {
    if bounds == [] {
      assert SplitPiece(xs, bounds, 0) == xs;
      assert Split(xs, bounds) == [xs];
      assert Flatten([xs]) == xs + Flatten([]);
    } else {
      var init, cut := bounds[..|bounds| - 1], bounds[|bounds| - 1];
      SplitSnoc(xs, init, cut);
      assert bounds == init + [cut];
      FlattenSplit(xs[..cut], init);
      FlattenSnoc(Split(xs[..cut], init), xs[cut..]);
    }
  }
}
