/** Overlapping log-level requests: `_LevelTracker` in src/model_execution_worker/utils.py. */
module LevelTracker {
  import opened Options

  /** A logger's level before the first request, and the requests still outstanding. */
  datatype Requests = Requests(baseline: int, levels: seq<int>)

  function MinOf(xs: seq<int>): (m: int)
    requires xs != []
    ensures m in xs && forall x :: x in xs ==> m <= x
  {
    if |xs| == 1 then xs[0]
    else
      var rest := MinOf(xs[..|xs| - 1]);
      assert xs == xs[..|xs| - 1] + [xs[|xs| - 1]];
      if xs[|xs| - 1] < rest then xs[|xs| - 1] else rest
  }

  /** `list.remove`: the first occurrence goes. */
  function RemoveFirst(xs: seq<int>, x: int): (ys: seq<int>)
    requires x in xs
    ensures multiset(ys) == multiset(xs) - multiset{x}
  {
    if xs[0] == x then
      assert xs == [x] + xs[1..];
      xs[1..]
    else
      assert xs == [xs[0]] + xs[1..];
      [xs[0]] + RemoveFirst(xs[1..], x)
  }

  // ---- one logger ----------------------------------------------------------

  /** A logger's level and its requests, if it has any. */
  datatype Tracked = Tracked(level: int, requests: Option<Requests>)

  datatype Op<K> = Acquire(logger: K, level: int) | Release(logger: K, level: int)

  function Acquired(t: Tracked, level: int): Tracked {
    var requests := t.requests.GetOr(Requests(t.level, []));
    var levels := requests.levels + [level];
    Tracked(MinOf(levels), Some(requests.(levels := levels)))
  }

  /** Whether a release finds its request; otherwise it raises and changes nothing. */
  predicate Releasable(t: Tracked, level: int) {
    t.requests.Some? && level in t.requests.value.levels
  }

  function Released(t: Tracked, level: int): Tracked
    requires Releasable(t, level)
  {
    var requests := t.requests.value;
    var levels := RemoveFirst(requests.levels, level);
    if levels == [] then Tracked(requests.baseline, None)
    else Tracked(MinOf(levels), Some(requests.(levels := levels)))
  }

  // ---- every history -------------------------------------------------------

  function After<K>(start: map<K, Tracked>, ops: seq<Op<K>>): (now: map<K, Tracked>)
    requires forall op :: op in ops ==> op.logger in start
    ensures now.Keys == start.Keys
  {
    if ops == [] then start
    else
      var before, op := After(start, ops[..|ops| - 1]), ops[|ops| - 1];
      assert op in ops;
      match op
      case Acquire(logger, level) => before[logger := Acquired(before[logger], level)]
      case Release(logger, level) =>
        if Releasable(before[logger], level) then before[logger := Released(before[logger], level)] else before
  }

  /** The requests for a logger that a history has made and not yet matched with a release. */
  function Outstanding<K(==)>(ops: seq<Op<K>>, logger: K): multiset<int> {
    if ops == [] then multiset{}
    else
      var before, op := Outstanding(ops[..|ops| - 1], logger), ops[|ops| - 1];
      if op.logger != logger then before
      else if op.Acquire? then before + multiset{op.level}
      else before - multiset{op.level}
  }

  /** `level` is the least of the outstanding requests. */
  ghost predicate IsLeast(level: int, outstanding: multiset<int>) {
    level in outstanding && forall x :: x in outstanding ==> level <= x
  }

  /** The tracker's bookkeeping for one logger agrees with its outstanding requests. */
  ghost predicate Agrees(initial: int, now: Tracked, outstanding: multiset<int>) {
    && (now.requests.Some? <==> outstanding != multiset{})
    && (now.requests.Some? ==> multiset(now.requests.value.levels) == outstanding && now.requests.value.baseline == initial)
    && (if outstanding == multiset{} then now.level == initial else IsLeast(now.level, outstanding))
  }

  lemma AcquireAgrees(initial: int, now: Tracked, outstanding: multiset<int>, level: int)
    requires Agrees(initial, now, outstanding)
    ensures Agrees(initial, Acquired(now, level), outstanding + multiset{level})
  {
    var levels := now.requests.GetOr(Requests(now.level, [])).levels + [level];
    assert multiset(levels) == outstanding + multiset{level};
    assert forall x :: x in levels <==> x in multiset(levels);
  }

  lemma ReleaseAgrees(initial: int, now: Tracked, outstanding: multiset<int>, level: int)
    requires Agrees(initial, now, outstanding)
    ensures Releasable(now, level) <==> level in outstanding
    ensures Releasable(now, level) ==> Agrees(initial, Released(now, level), outstanding - multiset{level})
  {
    if now.requests.Some? {
      var levels := now.requests.value.levels;
      assert level in levels <==> level in multiset(levels);
      if level in levels {
        var left := RemoveFirst(levels, level);
        assert multiset(left) == outstanding - multiset{level};
        assert forall x :: x in left <==> x in multiset(left);
        if left == [] { assert multiset(left) == multiset{}; } else { assert left[0] in multiset(left); }
      }
    }
  }

  /** However acquires and releases on any loggers interleave, a logger's level is the least of its
      outstanding requests, it is tracked exactly while it has some, and without any its level is the
      one it had before the first. */
  lemma {:induction false} LevelsFollowOutstanding<K>(start: map<K, Tracked>, ops: seq<Op<K>>, logger: K)
    requires (forall op :: op in ops ==> op.logger in start) && logger in start && start[logger].requests.None?
    ensures Agrees(start[logger].level, After(start, ops)[logger], Outstanding(ops, logger))
  {
    if ops != [] {
      var init, op := ops[..|ops| - 1], ops[|ops| - 1];
      LevelsFollowOutstanding(start, init, logger);
      var now, outstanding := After(start, init)[logger], Outstanding(init, logger);
      AcquireAgrees(start[logger].level, now, outstanding, op.level);
      ReleaseAgrees(start[logger].level, now, outstanding, op.level);
      assert op.level !in outstanding ==> outstanding - multiset{op.level} == outstanding;
    }
  }

  // ---- the tracker object --------------------------------------------------

  class Logger {
    var level: int

    constructor (level: int)
      ensures this.level == level
    {
      this.level := level;
    }
  }

  ghost predicate OthersKept(before: map<Logger, Requests>, after: map<Logger, Requests>, logger: Logger) {
    && (forall l :: l in before && l != logger ==> l in after && after[l] == before[l])
    && (forall l :: l in after && l != logger ==> l in before)
  }

  class Tracker {
    var entries: map<Logger, Requests>

    constructor ()
      ensures entries == map[]
    {
      entries := map[];
    }

    function StateOf(logger: Logger): Tracked
      reads this, logger
    {
      Tracked(logger.level, if logger in entries then Some(entries[logger]) else None)
    }

    method AcquireLevel(logger: Logger, level: int)
      modifies this, logger
      ensures StateOf(logger) == Acquired(old(StateOf(logger)), level)
      ensures OthersKept(old(entries), entries, logger)
    {
      var requests := if logger in entries then entries[logger] else Requests(logger.level, []);
      var levels := requests.levels + [level];
      entries := entries[logger := requests.(levels := levels)];
      logger.level := MinOf(levels);
    }

    /** Raises, changing nothing, when there is no such request. */
    method ReleaseLevel(logger: Logger, level: int) returns (raised: bool)
      modifies this, logger
      ensures raised <==> !Releasable(old(StateOf(logger)), level)
      ensures StateOf(logger) == if raised then old(StateOf(logger)) else Released(old(StateOf(logger)), level)
      ensures OthersKept(old(entries), entries, logger)
    {
      if logger !in entries || level !in entries[logger].levels {
        return true;
      }
      var requests := entries[logger];
      var levels := RemoveFirst(requests.levels, level);
      if levels != [] {
        entries := entries[logger := requests.(levels := levels)];
        logger.level := MinOf(levels);
      } else {
        entries := entries - {logger};
        logger.level := requests.baseline;
      }
      raised := false;
    }
  }
}
