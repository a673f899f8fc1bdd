/** Splitting a portfolio's rows into lookup chunks, by subject at risk:
    `subject_at_risk_chunk_rows` in src/model_execution_worker/distributed_tasks.py. */
module ExposureChunks {
  import opened Sequences

  // ---- the array operations the worker uses --------------------------------

  /** `pd.factorize`: the distinct ids in first-appearance order, and each row's index into them. */
  function Factorize<S(==,!new)>(ids: seq<S>): (r: (seq<nat>, seq<S>))
    ensures r.1 == Distinct(ids)
    ensures |r.0| == |ids|
    ensures forall i :: 0 <= i < |ids| ==> r.0[i] < |r.1| && r.1[r.0[i]] == ids[i]
  {
    var uniques := Distinct(ids);
    (seq(|ids|, i requires 0 <= i < |ids| => IndexOf(uniques, ids[i])), uniques)
  }

  /** Length of block `c` when `np.array_split` cuts `n` items into `k` even blocks. */
  function BlockSize(n: nat, k: nat, c: nat): nat
    requires c < k
  {
    n / k + if c < n % k then 1 else 0
  }

  /** First item of block `c`; `BlockStart(n, k, k)` is `n`. */
  function BlockStart(n: nat, k: nat, c: nat): nat
    requires 0 < k && c <= k
  {
    c * (n / k) + if c < n % k then c else n % k
  }

  /** Item `r` lies in block `c`. */
  predicate InBlock(n: nat, k: nat, r: nat, c: nat)
    requires c < k
  {
    BlockStart(n, k, c) <= r < BlockStart(n, k, c + 1)
  }

  function BlockSizes(n: nat, k: nat): seq<nat> {
    seq(k, c requires 0 <= c < k => BlockSize(n, k, c))
  }

  /** `np.repeat(np.arange(len(counts)), counts)`. */
  function Repeat(counts: seq<nat>): seq<nat> {
    if counts == [] then []
    else
      var last := |counts| - 1;
      Repeat(counts[..last]) + seq(counts[last], _ => last)
  }

  ghost predicate Before(keys: seq<nat>, i: nat, j: nat)
    requires i < |keys| && j < |keys|
  {
    keys[i] < keys[j] || (keys[i] == keys[j] && i < j)
  }

  ghost predicate IsStableArgsort(keys: seq<nat>, rows: seq<nat>) {
    && |rows| == |keys|
    && (forall a :: 0 <= a < |rows| ==> rows[a] < |keys|)
    && (forall i: nat :: i < |keys| ==> i in rows)
    && (forall a, b :: 0 <= a < b < |rows| ==> Before(keys, rows[a], rows[b]))
  }

  /** `np.argsort(keys, kind='stable')`. */
  function StableArgsort(keys: seq<nat>): (rows: seq<nat>)
    ensures IsStableArgsort(keys, rows)
  {
    if keys == [] then []
    else
      var n := |keys| - 1;
      var rest := StableArgsort(keys[..n]);
      PrefixArgsort(keys, rest);
      var at := SearchSortedRight(keys, rest, keys[n]);
      InsertLast(keys, rest, at);
      rest[..at] + [n] + rest[at..]
  }

  ghost predicate IsPrefixArgsort(keys: seq<nat>, rows: seq<nat>) {
    && |rows| + 1 == |keys|
    && (forall a :: 0 <= a < |rows| ==> rows[a] < |rows|)
    && (forall i: nat :: i < |rows| ==> i in rows)
    && (forall a, b :: 0 <= a < b < |rows| ==> Before(keys, rows[a], rows[b]))
  }

  lemma PrefixArgsort(keys: seq<nat>, rows: seq<nat>)
    requires keys != [] && IsStableArgsort(keys[..|keys| - 1], rows)
    ensures IsPrefixArgsort(keys, rows)
    ensures forall a, b :: 0 <= a < b < |rows| ==> keys[rows[a]] <= keys[rows[b]]
  {
  }

  lemma InsertLast(keys: seq<nat>, rest: seq<nat>, at: nat)
    requires IsPrefixArgsort(keys, rest) && at <= |rest|
    requires forall a :: 0 <= a < at ==> keys[rest[a]] <= keys[|rest|]
    requires forall a :: at <= a < |rest| ==> keys[|rest|] < keys[rest[a]]
    ensures IsStableArgsort(keys, rest[..at] + [|rest|] + rest[at..])
  {
    var n := |rest|;
    var rows := rest[..at] + [n] + rest[at..];
    InsertKeepsAll(rest, at);
    assert forall a :: 0 <= a < |rows| ==> rows[a] == if a < at then rest[a] else if a == at then n else rest[a - 1];
  }

  lemma InsertKeepsAll(rest: seq<nat>, at: nat)
    requires at <= |rest| && forall i: nat :: i < |rest| ==> i in rest
    ensures forall i: nat :: i <= |rest| ==> i in rest[..at] + [|rest|] + rest[at..]
  {
    var rows := rest[..at] + [|rest|] + rest[at..];
    forall i: nat | i <= |rest|
      ensures i in rows
    {
      assert rows[at] == |rest|;
      if i < |rest| {
        assert i in rest;
        var a :| 0 <= a < |rest| && rest[a] == i;
        assert rows[if a < at then a else a + 1] == i;
      }
    }
  }

  /** How many of the rows, already in key order, have a key of at most `v`. */
  function SearchSortedRight(keys: seq<nat>, rows: seq<nat>, v: nat): (at: nat)
    requires forall a :: 0 <= a < |rows| ==> rows[a] < |keys|
    requires forall a, b :: 0 <= a < b < |rows| ==> keys[rows[a]] <= keys[rows[b]]
    ensures at <= |rows|
    ensures forall a :: 0 <= a < at ==> keys[rows[a]] <= v
    ensures forall a :: at <= a < |rows| ==> v < keys[rows[a]]
  {
    if rows == [] then 0
    else if keys[rows[|rows| - 1]] <= v then |rows|
    else SearchSortedRight(keys, rows[..|rows| - 1], v)
  }

  ghost predicate NonDecreasing(xs: seq<nat>) {
    forall a, b :: 0 <= a < b < |xs| ==> xs[a] <= xs[b]
  }

  /** `np.searchsorted(sorted, v)`, a binary search for the leftmost place of `v`. */
  function SearchSorted(sorted: seq<nat>, v: nat, lo: nat := 0, hi: nat := |sorted|): (at: nat)
    requires lo <= hi <= |sorted|
    requires NonDecreasing(sorted)
    requires forall a :: 0 <= a < lo ==> sorted[a] < v
    requires forall a :: hi <= a < |sorted| ==> v <= sorted[a]
    ensures at <= |sorted|
    ensures forall a :: 0 <= a < at ==> sorted[a] < v
    ensures forall a :: at <= a < |sorted| ==> v <= sorted[a]
    decreases hi - lo
  {
    if lo == hi then lo
    else
      var mid := (lo + hi) / 2;
      if sorted[mid] < v then SearchSorted(sorted, v, mid + 1, hi)
      else SearchSorted(sorted, v, lo, mid)
  }

  /** Piece `j` of `np.split(xs, bounds)`: what lies between two consecutive bounds. */
  function SplitPiece<T>(xs: seq<T>, bounds: seq<nat>, j: nat): seq<T>
    requires j <= |bounds| && forall i :: 0 <= i < |bounds| ==> bounds[i] <= |xs|
    requires NonDecreasing(bounds)
  {
    xs[(if j == 0 then 0 else bounds[j - 1])..(if j == |bounds| then |xs| else bounds[j])]
  }

  function Split<T>(xs: seq<T>, bounds: seq<nat>): (pieces: seq<seq<T>>)
    requires forall i :: 0 <= i < |bounds| ==> bounds[i] <= |xs|
    requires NonDecreasing(bounds)
    ensures |pieces| == |bounds| + 1
    ensures forall j :: 0 <= j <= |bounds| ==> pieces[j] == SplitPiece(xs, bounds, j)
  {
    seq(|bounds| + 1, j requires 0 <= j <= |bounds| => SplitPiece(xs, bounds, j))
  }

  lemma SearchSortedMonotone(sorted: seq<nat>, v: nat, w: nat)
    requires v <= w
    requires NonDecreasing(sorted)
    ensures SearchSorted(sorted, v) <= SearchSorted(sorted, w)
  {
    var x, y := SearchSorted(sorted, v), SearchSorted(sorted, w);
    assert y < |sorted| ==> w <= sorted[y];
  }

  /** `row_chunks[rows]`. */
  function SortedKeys(keys: seq<nat>, rows: seq<nat>): (sorted: seq<nat>)
    requires IsStableArgsort(keys, rows)
    ensures |sorted| == |rows| && forall a :: 0 <= a < |rows| ==> sorted[a] == keys[rows[a]]
    ensures NonDecreasing(sorted)
  {
    assert forall a, b :: 0 <= a < b < |rows| ==> Before(keys, rows[a], rows[b]);
    seq(|rows|, a requires 0 <= a < |rows| => keys[rows[a]])
  }

  /** Sorts positions by key and cuts them where the key changes. */
  function SplitByKey(keys: seq<nat>, k: nat): (pieces: seq<seq<nat>>)
    requires 0 < k
    ensures |pieces| == k
  {
    var rows := StableArgsort(keys);
    var sorted := SortedKeys(keys, rows);
    Split(rows, Cuts(sorted, k))
  }

  /** `np.searchsorted(sorted, np.arange(1, k))`. */
  function Cuts(sorted: seq<nat>, k: nat): (cuts: seq<nat>)
    requires 0 < k
    requires NonDecreasing(sorted)
    ensures |cuts| == k - 1
    ensures forall j :: 0 <= j < k - 1 ==> cuts[j] == SearchSorted(sorted, j + 1) <= |sorted|
    ensures NonDecreasing(cuts)
  {
    var cuts: seq<nat> := seq(k - 1, j requires 0 <= j < k - 1 => SearchSorted(sorted, j + 1));
    CutsAscend(sorted, cuts);
    cuts
  }

  lemma CutsAscend(sorted: seq<nat>, cuts: seq<nat>)
    requires NonDecreasing(sorted)
    requires forall j :: 0 <= j < |cuts| ==> cuts[j] == SearchSorted(sorted, j + 1)
    ensures NonDecreasing(cuts)
  {
    forall i, j | 0 <= i < j < |cuts|
      ensures cuts[i] <= cuts[j]
    {
      SearchSortedMonotone(sorted, i + 1, j + 1);
    }
  }

  /** Between cut `c` and cut `c + 1` lie exactly the places holding key `c`. */
  lemma CutsIsolateKey(sorted: seq<nat>, k: nat, c: nat, cuts: seq<nat>, from: nat, to: nat)
    requires c < k && forall a :: 0 <= a < |sorted| ==> sorted[a] < k
    requires NonDecreasing(sorted)
    requires cuts == Cuts(sorted, k)
    requires from == if c == 0 then 0 else cuts[c - 1]
    requires to == if c == k - 1 then |sorted| else cuts[c]
    ensures from <= to <= |sorted|
    ensures forall a :: 0 <= a < |sorted| ==> (from <= a < to <==> sorted[a] == c)
  {
  }

  /** Piece `c` is the stretch of the sorted positions holding key `c`. */
  lemma PieceStretch(keys: seq<nat>, k: nat, c: nat) returns (from: nat, to: nat)
    requires c < k && forall i :: 0 <= i < |keys| ==> keys[i] < k
    ensures from <= to <= |keys| && SplitByKey(keys, k)[c] == StableArgsort(keys)[from..to]
    ensures forall a :: 0 <= a < |keys| ==> (from <= a < to <==> keys[StableArgsort(keys)[a]] == c)
  {
    var rows := StableArgsort(keys);
    var sorted := SortedKeys(keys, rows);
    var cuts := Cuts(sorted, k);
    from := if c == 0 then 0 else cuts[c - 1];
    to := if c == k - 1 then |sorted| else cuts[c];
    CutsIsolateKey(sorted, k, c, cuts, from, to);
    assert SplitByKey(keys, k)[c] == Split(rows, cuts)[c];
  }

  /** Piece `c` lists the positions with key `c`, in their original order. */
  lemma PieceIsStable(keys: seq<nat>, k: nat, c: nat)
    requires c < k && forall i :: 0 <= i < |keys| ==> keys[i] < k
    ensures StrictlyIncreasing(SplitByKey(keys, k)[c])
    ensures forall p: nat :: p in SplitByKey(keys, k)[c] <==> p < |keys| && keys[p] == c
  {
    var from, to := PieceStretch(keys, k, c);
    StretchIsStable(keys, StableArgsort(keys), from, to, c);
  }

  lemma StretchIsStable(keys: seq<nat>, rows: seq<nat>, from: nat, to: nat, c: nat)
    requires IsStableArgsort(keys, rows) && from <= to <= |rows|
    requires forall a :: 0 <= a < |rows| ==> (from <= a < to <==> keys[rows[a]] == c)
    ensures StrictlyIncreasing(rows[from..to])
    ensures forall p: nat :: p in rows[from..to] <==> p < |keys| && keys[p] == c
  {
    forall a, b | from <= a < b < to
      ensures rows[a] < rows[b]
    {
      assert Before(keys, rows[a], rows[b]);
    }
    forall p: nat | p < |keys| && keys[p] == c
      ensures p in rows[from..to]
    {
      assert p in rows;
      var a :| 0 <= a < |rows| && rows[a] == p;
      assert rows[from..to][a - from] == p;
    }
  }

  // ---- the worker's chunking -----------------------------------------------

  /** The chunk of each row: its subject's block. */
  function RowChunks<S(==,!new)>(ids: seq<S>, k: nat): (chunks: seq<nat>)
    requires 0 < k
    ensures |chunks| == |ids|
    ensures forall i, c :: 0 <= i < |ids| && 0 <= c < k ==>
      (chunks[i] == c <==> InBlock(|Distinct(ids)|, k, Rank(ids, i), c))
    ensures forall i :: 0 <= i < |ids| ==> chunks[i] < k
  {
    var (codes, uniques) := Factorize(ids);
    var labels := Repeat(BlockSizes(|uniques|, k));
    RepeatedBlocks(|uniques|, k);
    assert forall i :: 0 <= i < |ids| ==> codes[i] == Rank(ids, i) by {
      forall i | 0 <= i < |ids| { IndexOfIs(uniques, codes[i]); }
    }
    seq(|ids|, i requires 0 <= i < |ids| => labels[codes[i]])
  }

  /** Row positions of each of the `k` lookup chunks. */
  function ChunkRows<S(==,!new)>(ids: seq<S>, k: nat): (chunks: seq<seq<nat>>)
    requires 0 < k
    ensures |chunks| == k
  {
    SplitByKey(RowChunks(ids, k), k)
  }

  // ---- the simple form it refines ------------------------------------------

  /** First-appearance rank of row `i`'s subject. */
  function Rank<S(==,!new)>(ids: seq<S>, i: nat): (r: nat)
    requires i < |ids|
    ensures r < |Distinct(ids)| && Distinct(ids)[r] == ids[i]
  {
    IndexOf(Distinct(ids), ids[i])
  }

  /** Increasing positions below `m` of the rows whose subject's rank lies in block `c`. */
  function PositionsInBlock<S(==,!new)>(ids: seq<S>, k: nat, c: nat, m: nat := |ids|): (ps: seq<nat>)
    requires c < k && m <= |ids|
    ensures StrictlyIncreasing(ps)
    ensures forall p: nat :: p in ps <==> p < m && InBlock(|Distinct(ids)|, k, Rank(ids, p), c)
    decreases m
  {
    if m == 0 then []
    else
      var rest := PositionsInBlock(ids, k, c, m - 1);
      if InBlock(|Distinct(ids)|, k, Rank(ids, m - 1), c) then AppendIncreasing(rest, m - 1); rest + [m - 1]
      else rest
  }

  lemma AppendIncreasing(ps: seq<nat>, x: nat)
    requires StrictlyIncreasing(ps) && forall p :: p in ps ==> p < x
    ensures StrictlyIncreasing(ps + [x])
  {
    assert forall i :: 0 <= i < |ps| ==> ps[i] in ps;
  }

  /** The subjects of chunk `c`: even block `c` of the subjects in first-appearance order. */
  function ChunkSubjects<S(==,!new)>(ids: seq<S>, k: nat, c: nat): (ss: seq<S>)
    requires c < k
    ensures |ss| == BlockSize(|Distinct(ids)|, k, c)
  {
    var n := |Distinct(ids)|;
    BlockBounds(n, k, c);
    Distinct(ids)[BlockStart(n, k, c)..BlockStart(n, k, c + 1)]
  }

  // ---- block arithmetic ----------------------------------------------------

  lemma MultipleStep(k: nat, c: nat, q: nat)
    requires c < k
    ensures (c + 1) * q == c * q + q
    ensures (c + 1) * q <= k * q
  {
  }

  lemma BlockBounds(n: nat, k: nat, c: nat)
    requires c < k
    ensures BlockStart(n, k, 0) == 0 && BlockStart(n, k, k) == n
    ensures BlockStart(n, k, c + 1) == BlockStart(n, k, c) + BlockSize(n, k, c)
    ensures BlockStart(n, k, c + 1) <= n
  {
    MultipleStep(k, c, n / k);
    assert n == k * (n / k) + n % k;
  }

  lemma {:induction false} BlockStartMonotone(n: nat, k: nat, c: nat, d: nat)
    requires 0 < k && c <= d <= k
    ensures BlockStart(n, k, c) <= BlockStart(n, k, d)
    decreases d - c
  {
    if c < d {
      BlockBounds(n, k, c);
      BlockStartMonotone(n, k, c + 1, d);
    }
  }

  lemma {:induction false} RepeatedPrefix(n: nat, k: nat, m: nat)
    requires 0 < k && m <= k
    ensures |Repeat(BlockSizes(n, k)[..m])| == BlockStart(n, k, m)
    ensures forall r: nat :: r < BlockStart(n, k, m) ==>
      Repeat(BlockSizes(n, k)[..m])[r] < m && InBlock(n, k, r, Repeat(BlockSizes(n, k)[..m])[r])
  {
    if m == 0 {
      BlockBounds(n, k, 0);
    } else {
      RepeatedPrefix(n, k, m - 1);
      BlockBounds(n, k, m - 1);
      assert BlockSizes(n, k)[..m][..m - 1] == BlockSizes(n, k)[..m - 1];
    }
  }

  lemma BlocksDisjoint(n: nat, k: nat, r: nat, c: nat, d: nat)
    requires c < k && d < k && InBlock(n, k, r, c) && InBlock(n, k, r, d)
    ensures c == d
  {
    if c < d { BlockStartMonotone(n, k, c + 1, d); }
    if d < c { BlockStartMonotone(n, k, d + 1, c); }
  }

  /** Label `r` of the repeated block numbers is `c` exactly when rank `r` lies in block `c`. */
  lemma RepeatedBlocks(n: nat, k: nat)
    requires 0 < k
    ensures |Repeat(BlockSizes(n, k))| == n
    ensures forall r: nat :: r < n ==> Repeat(BlockSizes(n, k))[r] < k
    ensures forall r: nat, c: nat :: r < n && c < k ==>
      (Repeat(BlockSizes(n, k))[r] == c <==> InBlock(n, k, r, c))
  {
    assert BlockSizes(n, k)[..k] == BlockSizes(n, k);
    RepeatedPrefix(n, k, k);
    BlockBounds(n, k, 0);
    forall r: nat, c: nat | r < n && c < k && InBlock(n, k, r, c)
      ensures Repeat(BlockSizes(n, k))[r] == c
    {
      BlocksDisjoint(n, k, r, c, Repeat(BlockSizes(n, k))[r]);
    }
  }

  // ---- main results --------------------------------------------------------

  /** The array form refines the simple one: chunk `c` is exactly the increasing list of the
      positions whose subject's first-appearance rank falls in even block `c`. */
  lemma ChunkRowsArePositions<S(!new)>(ids: seq<S>, k: nat, c: nat)
    requires c < k
    ensures ChunkRows(ids, k)[c] == PositionsInBlock(ids, k, c)
  {
    PieceIsStable(RowChunks(ids, k), k, c);
    IncreasingUnique(ChunkRows(ids, k)[c], PositionsInBlock(ids, k, c));
  }

  /** Every row is in exactly one chunk, and all the rows of a subject are in the same one. */
  lemma ChunksPartitionRows<S(!new)>(ids: seq<S>, k: nat, i: nat)
    requires 0 < k && i < |ids|
    ensures exists c :: 0 <= c < k && i in ChunkRows(ids, k)[c]
    ensures forall c, d, j |
      0 <= c < k && 0 <= d < k && 0 <= j < |ids| && ids[j] == ids[i] && i in ChunkRows(ids, k)[c] && j in ChunkRows(ids, k)[d]
      :: c == d
  {
    var n := |Distinct(ids)|;
    var b := RowChunks(ids, k)[i];
    ChunkRowsArePositions(ids, k, b);
    assert i in ChunkRows(ids, k)[b];
    forall c: nat, d: nat, j | c < k && d < k && 0 <= j < |ids| && ids[j] == ids[i]
      && i in ChunkRows(ids, k)[c] && j in ChunkRows(ids, k)[d]
      ensures c == d
    {
      ChunkRowsArePositions(ids, k, c);
      ChunkRowsArePositions(ids, k, d);
      BlocksDisjoint(n, k, Rank(ids, i), c, d);
    }
  }

  /** The blocks are even, and only the chunks past the last subject are empty. */
  lemma ChunksAreEven<S(!new)>(ids: seq<S>, k: nat, c: nat, d: nat)
    requires c < k && d < k
    ensures |ChunkSubjects(ids, k, c)| <= |ChunkSubjects(ids, k, d)| + 1
    ensures ChunkRows(ids, k)[c] == [] <==> |Distinct(ids)| <= c
  {
    ChunkRowsArePositions(ids, k, c);
    BlockBounds(|Distinct(ids)|, k, c);
    EmptyBlock(|Distinct(ids)|, k, c);
    PositionsEmpty(ids, k, c);
  }

  lemma PositionsEmpty<S(!new)>(ids: seq<S>, k: nat, c: nat)
    requires c < k
    ensures PositionsInBlock(ids, k, c) == [] <==> BlockSize(|Distinct(ids)|, k, c) == 0
  {
    var ps := PositionsInBlock(ids, k, c);
    BlockInhabited(|Distinct(ids)|, k, c);
    if ps != [] {
      assert ps[0] in ps;
    }
    if r: nat :| r < |Distinct(ids)| && InBlock(|Distinct(ids)|, k, r, c) {
      var i := FirstRowOf(ids, r);
      assert i in ps;
    }
  }

  lemma BlockInhabited(n: nat, k: nat, c: nat)
    requires c < k
    ensures BlockSize(n, k, c) == 0 <==> forall r: nat :: r < n ==> !InBlock(n, k, r, c)
  {
    BlockBounds(n, k, c);
    if BlockSize(n, k, c) > 0 {
      assert InBlock(n, k, BlockStart(n, k, c), c);
    }
  }

  lemma FirstRowOf<S(!new)>(ids: seq<S>, r: nat) returns (i: nat)
    requires r < |Distinct(ids)|
    ensures i < |ids| && Rank(ids, i) == r
  {
    var s := Distinct(ids)[r];
    assert s in ids;
    i :| 0 <= i < |ids| && ids[i] == s;
    IndexOfIs(Distinct(ids), r);
  }

  lemma EmptyBlock(n: nat, k: nat, c: nat)
    requires c < k
    ensures BlockSize(n, k, c) == 0 <==> n <= c
  {
  }
}
