/** From running analyses to the load of each model, and which models have priority:
    `_aggregate_model_states`, `_get_highest_model_priorities` and `_clear_unprioritized_models` in
    kubernetes/worker-controller/src/autoscaler.py. */
module ModelLoads {
  import opened Options
  import opened Sequences
  import opened AutoscalerRules
  import opened Text
  import opened WorkerDeployments
  import opened Autoscaler

  // ---- aggregation ---------------------------------------------------------

  datatype RunningAnalysis = RunningAnalysis(tasks: nat, queueNames: seq<string>, priority: int)

  /** One analysis naming one queue. */
  datatype Mention = Mention(queue: string, tasks: nat, priority: int)

  function MentionsOf(a: RunningAnalysis): (ms: seq<Mention>)
    ensures |ms| == |a.queueNames|
  {
    seq(|a.queueNames|, i requires 0 <= i < |a.queueNames| => Mention(Lower(a.queueNames[i]), a.tasks, a.priority))
  }

  function Mentions(analyses: seq<RunningAnalysis>): seq<Mention> {
    if analyses == [] then [] else Mentions(analyses[..|analyses| - 1]) + MentionsOf(analyses[|analyses| - 1])
  }

  function Queues(ms: seq<Mention>): (qs: seq<string>)
    ensures |qs| == |ms|
  {
    seq(|ms|, i requires 0 <= i < |ms| => ms[i].queue)
  }

  function TasksFor(ms: seq<Mention>, queue: string): nat {
    if ms == [] then 0
    else TasksFor(ms[..|ms| - 1], queue) + if ms[|ms| - 1].queue == queue then ms[|ms| - 1].tasks else 0
  }

  function CountFor(ms: seq<Mention>, queue: string): nat {
    if ms == [] then 0
    else CountFor(ms[..|ms| - 1], queue) + if ms[|ms| - 1].queue == queue then 1 else 0
  }

  /** `highest` is the greatest priority among the mentions of the queue. */
  ghost predicate IsHighest(ms: seq<Mention>, queue: string, highest: int) {
    && (exists i :: 0 <= i < |ms| && ms[i].queue == queue && ms[i].priority == highest)
    && (forall i :: 0 <= i < |ms| && ms[i].queue == queue ==> ms[i].priority <= highest)
  }

  /** The states hold, for exactly the queues mentioned, the sum of their tasks, how many mentions there
      are and the highest priority among them. */
  ghost predicate Aggregates(states: map<string, Load>, ms: seq<Mention>) {
    && (forall q :: q in states <==> q in Queues(ms))
    && (forall q :: q in states ==> IsLoadOf(states[q], ms, q))
  }

  ghost predicate IsLoadOf(load: Load, ms: seq<Mention>, queue: string) {
    load.tasks == TasksFor(ms, queue) && load.analyses == CountFor(ms, queue) && IsHighest(ms, queue, load.priority)
  }

  /** `id[:-3]` */
  function WithoutApi(id: string): string {
    if |id| < 3 then "" else id[..|id| - 3]
  }

  /** Deployments with no load of their own are added with none, one after another. */
  function WithIdle(order: seq<string>, ids: seq<string>): (all: seq<string>)
    ensures order <= all
    ensures NoDuplicates(order) ==> NoDuplicates(all)
    ensures forall id :: id in ids ==> id in all || WithoutApi(id) in all
    ensures forall q :: q in all ==> q in order || q in ids
    ensures forall i :: |order| <= i < |all| ==> all[i] !in all[..i] && WithoutApi(all[i]) !in all[..i]
  {
    if ids == [] then order
    else
      var last := ids[|ids| - 1];
      var before := WithIdle(order, ids[..|ids| - 1]);
      assert ids == ids[..|ids| - 1] + [last];
      if last in before || WithoutApi(last) in before then before else before + [last]
  }

  method AggregateModelStates(analyses: seq<RunningAnalysis>, deploymentIds: seq<string>)
    returns (order: seq<string>, states: map<string, Load>)
    ensures order == WithIdle(Distinct(Queues(Mentions(analyses))), deploymentIds)
    ensures forall q :: q in states <==> q in order
    ensures Aggregates(map q | q in states && q in Queues(Mentions(analyses)) :: states[q], Mentions(analyses))
    ensures forall q :: q in states && q !in Queues(Mentions(analyses)) ==> states[q] == NO_LOAD
  {
    var running;
    order, running := RunningStates(analyses);
    states := running;
    ghost var ms := Mentions(analyses);
    ghost var first := order;
    for i := 0 to |deploymentIds|
      invariant order == WithIdle(first, deploymentIds[..i])
      invariant forall q :: q in states <==> q in order
      invariant forall q :: q in running ==> q in states && states[q] == running[q]
      invariant forall q :: q in states && q !in running ==> states[q] == NO_LOAD
    {
      assert deploymentIds[..i + 1][..i] == deploymentIds[..i];
      var id := deploymentIds[i];
      if id !in states && WithoutApi(id) !in states {
        states := states[id := NO_LOAD];
        order := order + [id];
      }
    }
    assert deploymentIds[..|deploymentIds|] == deploymentIds;
    RunningAgain(states, running, ms);
  }

  lemma RunningAgain(states: map<string, Load>, running: map<string, Load>, ms: seq<Mention>)
    requires forall q :: q in running <==> q in Queues(ms)
    requires forall q :: q in running ==> q in states && states[q] == running[q]
    ensures (map q | q in states && q in Queues(ms) :: states[q]) == running
  {
  }

  /** The states, with their keys in order of first mention. */
  ghost predicate Tracks(order: seq<string>, states: map<string, Load>, ms: seq<Mention>) {
    order == Distinct(Queues(ms)) && Aggregates(states, ms)
  }

  method RunningStates(analyses: seq<RunningAnalysis>) returns (order: seq<string>, states: map<string, Load>)
    ensures Tracks(order, states, Mentions(analyses))
  {
    order, states := [], map[];
    for i := 0 to |analyses|
      invariant Tracks(order, states, Mentions(analyses[..i]))
    {
      ghost var before := Mentions(analyses[..i]);
      var a := analyses[i];
      assert MentionsOf(a)[..0] == [] && before + [] == before;
      for j := 0 to |a.queueNames|
        invariant Tracks(order, states, before + MentionsOf(a)[..j])
      {
        PrefixStep(MentionsOf(a), j + 1);
        order, states := AddMention(order, states, MentionsOf(a)[j], before + MentionsOf(a)[..j]);
        assert before + MentionsOf(a)[..j + 1] == before + MentionsOf(a)[..j] + [MentionsOf(a)[j]];
      }
      assert MentionsOf(a)[..|a.queueNames|] == MentionsOf(a);
      assert analyses[..i + 1][..i] == analyses[..i];
    }
    assert analyses[..|analyses|] == analyses;
  }

  /** One queue of one analysis. */
  method AddMention(order: seq<string>, states: map<string, Load>, m: Mention, ghost ms: seq<Mention>)
    returns (order': seq<string>, states': map<string, Load>)
    requires Tracks(order, states, ms)
    ensures Tracks(order', states', ms + [m])
  {
    if m.queue in states {
      JoinMention(order, states, ms, m);
      states' := states[m.queue := Joined(states[m.queue], m)];
      order' := order;
    } else {
      FirstMention(order, states, ms, m);
      states' := states[m.queue := Load(m.tasks, 1, m.priority)];
      order' := order + [m.queue];
    }
  }

  function Joined(load: Load, m: Mention): Load {
    Load(load.tasks + m.tasks, load.analyses + 1, if m.priority > load.priority then m.priority else load.priority)
  }

  lemma OtherQueue(load: Load, ms: seq<Mention>, queue: string, m: Mention)
    requires IsLoadOf(load, ms, queue) && m.queue != queue
    ensures IsLoadOf(load, ms + [m], queue)
  {
  }

  lemma SameQueue(load: Load, ms: seq<Mention>, m: Mention)
    requires IsLoadOf(load, ms, m.queue)
    ensures IsLoadOf(Joined(load, m), ms + [m], m.queue)
  {
  }

  lemma FirstOfQueue(ms: seq<Mention>, m: Mention)
    requires m.queue !in Queues(ms)
    ensures IsLoadOf(Load(m.tasks, 1, m.priority), ms + [m], m.queue)
  {
    assert (ms + [m])[..|ms|] == ms && (ms + [m])[|ms|] == m;
    NotMentioned(ms, m.queue);
    assert forall i :: 0 <= i < |ms| ==> Queues(ms)[i] == ms[i].queue;
  }

  lemma QueuesSnoc(ms: seq<Mention>, m: Mention)
    ensures Queues(ms + [m]) == Queues(ms) + [m.queue]
    ensures Distinct(Queues(ms + [m])) == if m.queue in Queues(ms) then Distinct(Queues(ms)) else Distinct(Queues(ms)) + [m.queue]
    ensures forall q :: q in Queues(ms + [m]) <==> q in Queues(ms) || q == m.queue
  {
    assert Queues(ms + [m]) == Queues(ms) + [m.queue];
    DistinctSnoc(Queues(ms), m.queue);
  }

  lemma MentionAdded(states: map<string, Load>, ms: seq<Mention>, m: Mention, load: Load)
    requires Aggregates(states, ms) && IsLoadOf(load, ms + [m], m.queue)
    ensures Aggregates(states[m.queue := load], ms + [m])
  {
    KeysAdded(states, states[m.queue := load], ms, m);
    OtherLoads(states, states[m.queue := load], ms, m);
  }

  lemma KeysAdded(states: map<string, Load>, after: map<string, Load>, ms: seq<Mention>, m: Mention)
    requires forall q :: q in states <==> q in Queues(ms)
    requires forall q :: q in after <==> q in states || q == m.queue
    ensures forall q :: q in after <==> q in Queues(ms + [m])
  {
    assert Queues(ms + [m]) == Queues(ms) + [m.queue];
  }

  lemma OtherLoads(states: map<string, Load>, after: map<string, Load>, ms: seq<Mention>, m: Mention)
    requires forall q :: q in states ==> IsLoadOf(states[q], ms, q)
    requires forall q :: q in after && q != m.queue ==> q in states && after[q] == states[q]
    requires m.queue in after && IsLoadOf(after[m.queue], ms + [m], m.queue)
    ensures forall q :: q in after ==> IsLoadOf(after[q], ms + [m], q)
  {
    forall q | q in after && q != m.queue
      ensures IsLoadOf(after[q], ms + [m], q)
    {
      OtherQueue(states[q], ms, q, m);
    }
  }

  lemma JoinMention(order: seq<string>, states: map<string, Load>, ms: seq<Mention>, m: Mention)
    requires Tracks(order, states, ms) && m.queue in states
    ensures Tracks(order, states[m.queue := Joined(states[m.queue], m)], ms + [m])
  {
    SameQueue(states[m.queue], ms, m);
    MentionAdded(states, ms, m, Joined(states[m.queue], m));
    QueuesSnoc(ms, m);
  }

  lemma FirstMention(order: seq<string>, states: map<string, Load>, ms: seq<Mention>, m: Mention)
    requires Tracks(order, states, ms) && m.queue !in states
    ensures Tracks(order + [m.queue], states[m.queue := Load(m.tasks, 1, m.priority)], ms + [m])
  {
    FirstOfQueue(ms, m);
    MentionAdded(states, ms, m, Load(m.tasks, 1, m.priority));
    QueuesSnoc(ms, m);
  }

  lemma {:induction false} NotMentioned(ms: seq<Mention>, queue: string)
    ensures queue !in Queues(ms) ==> TasksFor(ms, queue) == 0 && CountFor(ms, queue) == 0
  {
    if ms != [] {
      NotMentioned(ms[..|ms| - 1], queue);
      assert Queues(ms) == Queues(ms[..|ms| - 1]) + [ms[|ms| - 1].queue];
    }
  }

  // ---- conservation --------------------------------------------------------

  function TotalTasks(ms: seq<Mention>): nat {
    if ms == [] then 0 else TotalTasks(ms[..|ms| - 1]) + ms[|ms| - 1].tasks
  }

  function SumOver(ms: seq<Mention>, queues: seq<string>): nat {
    if queues == [] then 0 else SumOver(ms, queues[..|queues| - 1]) + TasksFor(ms, queues[|queues| - 1])
  }

  lemma {:induction false} SumOverAdded(ms: seq<Mention>, m: Mention, queues: seq<string>)
    requires NoDuplicates(queues)
    ensures SumOver(ms + [m], queues) == SumOver(ms, queues) + if m.queue in queues then m.tasks else 0
  {
    if queues != [] {
      var init, last := queues[..|queues| - 1], queues[|queues| - 1];
      SumOverAdded(ms, m, init);
      assert (ms + [m])[..|ms|] == ms && queues == init + [last];
      assert last !in init;
    }
  }

  lemma SumOverSnoc(ms: seq<Mention>, queues: seq<string>, queue: string)
    ensures SumOver(ms, queues + [queue]) == SumOver(ms, queues) + TasksFor(ms, queue)
  {
  }

  lemma ConservedOneMore(ms: seq<Mention>, m: Mention)
    ensures SumOver(ms + [m], Distinct(Queues(ms + [m]))) == SumOver(ms, Distinct(Queues(ms))) + m.tasks
  {
    var d := Distinct(Queues(ms));
    QueuesSnoc(ms, m);
    SumOverAdded(ms, m, d);
    if m.queue !in Queues(ms) {
      SumOverSnoc(ms + [m], d, m.queue);
      NotMentioned(ms, m.queue);
      assert (ms + [m])[..|ms|] == ms;
    }
  }

  /** No task is lost or counted twice: the queues' task sums add up to the tasks of all mentions. */
  lemma {:induction false} TasksAreConserved(ms: seq<Mention>)
    ensures SumOver(ms, Distinct(Queues(ms))) == TotalTasks(ms)
  {
    if ms != [] {
      var init, last := ms[..|ms| - 1], ms[|ms| - 1];
      assert ms == init + [last];
      TasksAreConserved(init);
      ConservedOneMore(init, last);
    }
  }

  function CountOver(ms: seq<Mention>, queues: seq<string>): nat {
    if queues == [] then 0 else CountOver(ms, queues[..|queues| - 1]) + CountFor(ms, queues[|queues| - 1])
  }

  lemma {:induction false} CountOverAdded(ms: seq<Mention>, m: Mention, queues: seq<string>)
    requires NoDuplicates(queues)
    ensures CountOver(ms + [m], queues) == CountOver(ms, queues) + if m.queue in queues then 1 else 0
  {
    if queues != [] {
      var init, last := queues[..|queues| - 1], queues[|queues| - 1];
      CountOverAdded(ms, m, init);
      assert (ms + [m])[..|ms|] == ms && queues == init + [last];
      assert last !in init;
    }
  }

  lemma CountOneMore(ms: seq<Mention>, m: Mention)
    ensures CountOver(ms + [m], Distinct(Queues(ms + [m]))) == CountOver(ms, Distinct(Queues(ms))) + 1
  {
    var d := Distinct(Queues(ms));
    QueuesSnoc(ms, m);
    CountOverAdded(ms, m, d);
    if m.queue !in Queues(ms) {
      assert (d + [m.queue])[..|d|] == d;
      NotMentioned(ms, m.queue);
      assert (ms + [m])[..|ms|] == ms;
    }
  }

  /** The queues' analysis counts add up to the number of mentions. */
  lemma {:induction false} CountsAreConserved(ms: seq<Mention>)
    ensures CountOver(ms, Distinct(Queues(ms))) == |ms|
  {
    if ms != [] {
      var init, last := ms[..|ms| - 1], ms[|ms| - 1];
      assert ms == init + [last];
      CountsAreConserved(init);
      CountOneMore(init, last);
    }
  }

  /** Tasks of the analyses, each as often as it names a queue. */
  function AnalysesTasks(analyses: seq<RunningAnalysis>): nat {
    if analyses == [] then 0
    else
      var a := analyses[|analyses| - 1];
      AnalysesTasks(analyses[..|analyses| - 1]) + a.tasks * |a.queueNames|
  }

  lemma {:induction false} TotalTasksAppend(a: seq<Mention>, b: seq<Mention>)
    ensures TotalTasks(a + b) == TotalTasks(a) + TotalTasks(b)
  {
    if b == [] {
      assert a + b == a;
    } else {
      TotalTasksAppend(a, b[..|b| - 1]);
      assert (a + b)[..|a + b| - 1] == a + b[..|b| - 1];
    }
  }

  lemma {:induction false} EqualTasks(ms: seq<Mention>, tasks: nat)
    requires forall i :: 0 <= i < |ms| ==> ms[i].tasks == tasks
    ensures TotalTasks(ms) == tasks * |ms|
  {
    if ms != [] {
      EqualTasks(ms[..|ms| - 1], tasks);
      assert tasks * |ms| == tasks * (|ms| - 1) + tasks;
    }
  }

  /** Every analysis counts with all its tasks on every queue it names. */
  lemma {:induction false} MentionsHoldTasks(analyses: seq<RunningAnalysis>)
    ensures TotalTasks(Mentions(analyses)) == AnalysesTasks(analyses)
  {
    if analyses != [] {
      var init, a := analyses[..|analyses| - 1], analyses[|analyses| - 1];
      MentionsHoldTasks(init);
      TotalTasksAppend(Mentions(init), MentionsOf(a));
      EqualTasks(MentionsOf(a), a.tasks);
    }
  }

  /** A queue is mentioned exactly when some analysis names it, ignoring case. */
  lemma {:induction false} MentionedWhenNamed(analyses: seq<RunningAnalysis>, queue: string, tasks: nat, priority: int)
    ensures Mention(queue, tasks, priority) in Mentions(analyses)
       <==> exists i, j :: 0 <= i < |analyses| && 0 <= j < |analyses[i].queueNames|
              && Lower(analyses[i].queueNames[j]) == queue && analyses[i].tasks == tasks && analyses[i].priority == priority
  {
    if analyses != [] {
      var init, a := analyses[..|analyses| - 1], analyses[|analyses| - 1];
      var m := Mention(queue, tasks, priority);
      MentionedWhenNamed(init, queue, tasks, priority);
      if m in MentionsOf(a) {
        var j :| 0 <= j < |a.queueNames| && MentionsOf(a)[j] == m;
        assert analyses[|init|] == a && Lower(a.queueNames[j]) == queue;
      }
      if i, j :| 0 <= i < |analyses| && 0 <= j < |analyses[i].queueNames|
                 && Lower(analyses[i].queueNames[j]) == queue && analyses[i].tasks == tasks && analyses[i].priority == priority {
        if i == |init| { assert MentionsOf(a)[j] == m; } else { assert analyses[i] == init[i]; }
      }
    }
  }

  // ---- priority ------------------------------------------------------------

  predicate Descending(xs: seq<int>) {
    forall i, j :: 0 <= i < j < |xs| ==> xs[i] > xs[j]
  }

  /** `xs` with `x` in its place, unless it is there already. */
  function Insert(xs: seq<int>, x: int): (ys: seq<int>)
    requires Descending(xs)
    ensures Descending(ys)
    ensures forall y :: y in ys <==> y in xs || y == x
  {
    if xs == [] then [x]
    else if x > xs[0] then [x] + xs
    else if x == xs[0] then xs
    else
      InsertBelow(xs[0], xs[1..], Insert(xs[1..], x), x);
      assert xs == [xs[0]] + xs[1..];
      [xs[0]] + Insert(xs[1..], x)
  }

  lemma InsertBelow(first: int, xs: seq<int>, rest: seq<int>, x: int)
    requires Descending([first] + xs) && Descending(rest) && x < first
    requires forall y :: y in rest <==> y in xs || y == x
    ensures Descending([first] + rest)
  {
    forall i | 0 <= i < |rest|
      ensures rest[i] < first
    {
      if rest[i] != x {
        assert rest[i] in xs;
        var j :| 0 <= j < |xs| && xs[j] == rest[i];
        assert ([first] + xs)[0] == first && ([first] + xs)[j + 1] == xs[j];
      }
    }
  }

  /** `sorted(set(priorities), reverse=True)` */
  function Levels<K>(entries: seq<Entry<K>>): (levels: seq<int>)
    ensures Descending(levels)
    ensures forall p :: p in levels <==> exists i :: 0 <= i < |entries| && entries[i].load.priority == p
  {
    if entries == [] then [] else Insert(Levels(entries[..|entries| - 1]), entries[|entries| - 1].load.priority)
  }

  /** `levels[0:k]` with Python's reading of a negative `k`. */
  function Top(levels: seq<int>, k: int): seq<int> {
    if k >= 0 then (if k <= |levels| then levels[..k] else levels)
    else if -k <= |levels| then levels[..|levels| + k] else []
  }

  function HighestPriorities<K>(entries: seq<Entry<K>>, limit: Option<int>): Option<seq<int>> {
    if limit.GetOr(0) == 0 || |Levels(entries)| <= 1 then None else Some(Top(Levels(entries), limit.value))
  }

  /** The limit changes nothing when it is off, when all priorities agree, or when it leaves no level. */
  predicate PriorityActs<K>(entries: seq<Entry<K>>, limit: Option<int>) {
    HighestPriorities(entries, limit).GetOr([]) != []
  }

  function Prioritized<K>(entry: Entry<K>, priorities: seq<int>): Entry<K> {
    if entry.load.priority in priorities then entry else entry.(load := NO_LOAD)
  }

  /** The distinct priorities above `p`, and those below. */
  function Above<K>(entries: seq<Entry<K>>, p: int): set<int> {
    set i | 0 <= i < |entries| && entries[i].load.priority > p :: entries[i].load.priority
  }

  function Below<K>(entries: seq<Entry<K>>, p: int): set<int> {
    set i | 0 <= i < |entries| && entries[i].load.priority < p :: entries[i].load.priority
  }

  function Members(xs: seq<int>): set<int> {
    set x | x in xs
  }

  lemma DescendingCardinality(xs: seq<int>)
    requires Descending(xs)
    ensures |Members(xs)| == |xs|
  {
    LengthIsCardinality(xs);
  }

  lemma PlaceOfLevel<K>(entries: seq<Entry<K>>, at: nat)
    requires at < |Levels(entries)|
    ensures |Above(entries, Levels(entries)[at])| == at
    ensures |Below(entries, Levels(entries)[at])| == |Levels(entries)| - 1 - at
  {
    var levels := Levels(entries);
    var p := levels[at];
    LevelsAbove(entries, at);
    LevelsBelow(entries, at);
    DescendingCardinality(levels[..at]);
    DescendingCardinality(levels[at + 1..]);
  }

  lemma LevelsAbove<K>(entries: seq<Entry<K>>, at: nat)
    requires at < |Levels(entries)|
    ensures Above(entries, Levels(entries)[at]) == Members(Levels(entries)[..at])
  {
    var levels := Levels(entries);
    forall x
      ensures x in Above(entries, levels[at]) <==> x in levels[..at]
    {
      assert x in levels <==> exists i :: 0 <= i < |entries| && entries[i].load.priority == x;
      if x in levels && x > levels[at] {
        var b :| 0 <= b < |levels| && levels[b] == x;
        assert levels[..at][b] == x;
      }
    }
  }

  lemma LevelsBelow<K>(entries: seq<Entry<K>>, at: nat)
    requires at < |Levels(entries)|
    ensures Below(entries, Levels(entries)[at]) == Members(Levels(entries)[at + 1..])
  {
    var levels := Levels(entries);
    forall x
      ensures x in Below(entries, levels[at]) <==> x in levels[at + 1..]
    {
      assert x in levels <==> exists i :: 0 <= i < |entries| && entries[i].load.priority == x;
      if x in levels && x < levels[at] {
        var b :| 0 <= b < |levels| && levels[b] == x;
        assert levels[at + 1..][b - at - 1] == x;
      }
    }
  }

  /** Two models differ in priority. */
  ghost predicate PrioritiesDiffer<K>(entries: seq<Entry<K>>) {
    exists i, j :: 0 <= i < |entries| && 0 <= j < |entries| && entries[i].load.priority != entries[j].load.priority
  }

  lemma DifferWhenLevels<K>(entries: seq<Entry<K>>)
    ensures PrioritiesDiffer(entries) <==> |Levels(entries)| > 1
  {
    var levels := Levels(entries);
    if |levels| > 1 {
      assert levels[0] in levels && levels[1] in levels;
      var i :| 0 <= i < |entries| && entries[i].load.priority == levels[0];
      var j :| 0 <= j < |entries| && entries[j].load.priority == levels[1];
      assert entries[i].load.priority != entries[j].load.priority;
    }
    if i, j :| 0 <= i < |entries| && 0 <= j < |entries| && entries[i].load.priority != entries[j].load.priority {
      assert entries[i].load.priority in levels && entries[j].load.priority in levels;
    }
  }

  lemma InTopWhen<K>(entries: seq<Entry<K>>, limit: int, i: nat)
    requires i < |entries|
    ensures limit >= 0 ==>
      (entries[i].load.priority in Top(Levels(entries), limit) <==> |Above(entries, entries[i].load.priority)| < limit)
    ensures limit < 0 ==>
      (entries[i].load.priority in Top(Levels(entries), limit) <==> |Below(entries, entries[i].load.priority)| >= -limit)
  {
    var at := LevelOf(entries, i);
    PlaceOfLevel(entries, at);
    TopIsPrefix(Levels(entries), limit);
    InPrefix(Levels(entries), |Top(Levels(entries), limit)|, at);
  }

  lemma LevelOf<K>(entries: seq<Entry<K>>, i: nat) returns (at: nat)
    requires i < |entries|
    ensures at < |Levels(entries)| && Levels(entries)[at] == entries[i].load.priority
  {
    assert entries[i].load.priority in Levels(entries);
    at :| 0 <= at < |Levels(entries)| && Levels(entries)[at] == entries[i].load.priority;
  }

  lemma TopIsPrefix(levels: seq<int>, k: int)
    ensures |Top(levels, k)| <= |levels| && Top(levels, k) == levels[..|Top(levels, k)|]
    ensures |Top(levels, k)| == if k >= 0 then (if k <= |levels| then k else |levels|) else if -k <= |levels| then |levels| + k else 0
  {
  }

  lemma InPrefix(levels: seq<int>, n: nat, at: nat)
    requires Descending(levels) && n <= |levels| && at < |levels|
    ensures levels[at] in levels[..n] <==> at < n
  {
    if at < n { assert levels[..n][at] == levels[at]; }
  }

  /** The load a model without priority is left with. */
  ghost predicate Cleared<K>(before: Entry<K>, after: Entry<K>) {
    after == Entry(before.queue, Load(0, 0, 1), before.wd)
  }

  /** The result of the clearing, model by model: unless the limit is off or all priorities agree, a model
      keeps its load when fewer distinct priorities than the limit exceed its own, and is cleared
      otherwise. A negative limit drops that many of the lowest priorities, if that leaves any. */
  ghost predicate ClearedByLimit<K>(entries: seq<Entry<K>>, limit: Option<int>, result: seq<Entry<K>>) {
    |result| == |entries| && forall i :: 0 <= i < |entries| ==> KeptOrCleared(entries, limit, result[i], i)
  }

  ghost predicate KeptOrCleared<K>(entries: seq<Entry<K>>, limit: Option<int>, after: Entry<K>, i: nat)
    requires i < |entries|
  {
    var p := entries[i].load.priority;
    if limit.GetOr(0) == 0 || !PrioritiesDiffer(entries) then after == entries[i]
    else if limit.value > 0 then
      if |Above(entries, p)| < limit.value then after == entries[i] else Cleared(entries[i], after)
    else
      if |Below(entries, p)| >= -limit.value || |DistinctPriorities(entries)| <= -limit.value then after == entries[i]
      else Cleared(entries[i], after)
  }

  function DistinctPriorities<K>(entries: seq<Entry<K>>): set<int> {
    set i | 0 <= i < |entries| :: entries[i].load.priority
  }

  lemma LevelsAreDistinctPriorities<K>(entries: seq<Entry<K>>)
    ensures |DistinctPriorities(entries)| == |Levels(entries)|
  {
    var levels := Levels(entries);
    DescendingCardinality(levels);
    assert DistinctPriorities(entries) == Members(levels);
  }

  lemma PrioritizedByLimit<K>(entries: seq<Entry<K>>, limit: Option<int>, i: nat)
    requires i < |entries|
    ensures KeptOrCleared(entries, limit,
      if PriorityActs(entries, limit) then Prioritized(entries[i], Top(Levels(entries), limit.value)) else entries[i], i)
  {
    DifferWhenLevels(entries);
    LevelsAreDistinctPriorities(entries);
    InTopWhen(entries, limit.GetOr(0), i);
  }

  /** `_clear_unprioritized_models` */
  method ClearUnprioritizedModels<K>(entries: seq<Entry<K>>, limit: Option<int>) returns (result: seq<Entry<K>>)
    ensures ClearedByLimit(entries, limit, result)
    ensures !PriorityActs(entries, limit) ==> result == entries
    ensures PriorityActs(entries, limit) ==>
      forall i :: 0 <= i < |entries| ==> result[i] == Prioritized(entries[i], Top(Levels(entries), limit.value))
  {
    var priorities := HighestPriorities(entries, limit).GetOr([]);
    if priorities == [] {
      AllByLimit(entries, limit, entries);
      return entries;
    }
    result := [];
    for i := 0 to |entries|
      invariant |result| == i
      invariant forall j :: 0 <= j < i ==> result[j] == Prioritized(entries[j], priorities)
    {
      if entries[i].load.priority in priorities {
        result := result + [entries[i]];
      } else {
        result := result + [entries[i].(load := NO_LOAD)];
      }
    }
    AllByLimit(entries, limit, result);
  }

  lemma AllByLimit<K>(entries: seq<Entry<K>>, limit: Option<int>, result: seq<Entry<K>>)
    requires |result| == |entries|
    requires forall i :: 0 <= i < |entries| ==>
      result[i] == if PriorityActs(entries, limit) then Prioritized(entries[i], Top(Levels(entries), limit.value)) else entries[i]
    ensures ClearedByLimit(entries, limit, result)
  {
    forall i: nat | i < |entries|
      ensures KeptOrCleared(entries, limit, result[i], i)
    {
      PrioritizedByLimit(entries, limit, i);
    }
  }

  /** When the limit acts, a threshold separates the models: those that keep their load are exactly the
      ones at or above it, so each of them outranks each cleared one, and with a positive limit they
      span exactly that many priority levels, or all there are. */
  lemma PriorityThreshold<K>(entries: seq<Entry<K>>, limit: Option<int>) returns (threshold: int)
    requires PriorityActs(entries, limit)
    ensures forall i :: 0 <= i < |entries| ==>
      (entries[i].load.priority in Top(Levels(entries), limit.value) <==> entries[i].load.priority >= threshold)
    ensures exists i :: 0 <= i < |entries| && entries[i].load.priority == threshold
    ensures limit.value > 0 ==>
      |Top(Levels(entries), limit.value)| == if limit.value <= |Levels(entries)| then limit.value else |Levels(entries)|
  {
    var levels := Levels(entries);
    var top := Top(levels, limit.value);
    threshold := top[|top| - 1];
    assert top == levels[..|top|];
    assert threshold == levels[|top| - 1] && threshold in levels;
    forall i | 0 <= i < |entries|
      ensures entries[i].load.priority in top <==> entries[i].load.priority >= threshold
    {
      TopIsAboveLast(levels, |top|, entries[i].load.priority);
    }
  }

  /** The priorities of the models that keep their load, model by model. */
  function Kept<K>(entries: seq<Entry<K>>, priorities: seq<int>): seq<int> {
    if entries == [] then []
    else
      var p := entries[|entries| - 1].load.priority;
      Kept(entries[..|entries| - 1], priorities) + if p in priorities then [p] else []
  }

  lemma {:induction false} KeptMembers<K>(entries: seq<Entry<K>>, priorities: seq<int>)
    ensures forall p :: p in Kept(entries, priorities) <==>
      p in priorities && exists i :: 0 <= i < |entries| && entries[i].load.priority == p
    ensures |Kept(entries, priorities)| <= |entries|
    ensures (forall i :: 0 <= i < |entries| ==> entries[i].load.priority in priorities) ==>
      |Kept(entries, priorities)| == |entries|
  {
    if entries != [] {
      KeptMembers(entries[..|entries| - 1], priorities);
    }
  }

  /** As many priorities are kept as there are distinct ones among the kept, which are all the top ones. */
  lemma KeptLevels<K>(entries: seq<Entry<K>>, priorities: seq<int>)
    requires Descending(priorities) && forall p :: p in priorities ==> p in Levels(entries)
    ensures |Kept(entries, priorities)| >= |priorities|
    ensures |Kept(entries, priorities)| == |priorities| <==> NoDuplicates(Kept(entries, priorities))
  {
    var kept := Kept(entries, priorities);
    KeptMembers(entries, priorities);
    forall p
      ensures p in Distinct(kept) <==> p in priorities
    {
      if p in priorities { assert p in Levels(entries); }
      assert p in Distinct(kept) <==> p in kept;
    }
    DistinctWhole(kept);
    SameElementsSameLength(Distinct(kept), priorities);
  }

  /** The documented limit is on models. When a positive limit acts, at most that many models keep their
      load exactly when there are no more models than that anyway, or no two kept ones share a
      priority. */
  lemma LimitCountsModels<K>(entries: seq<Entry<K>>, limit: nat)
    requires limit > 0 && PriorityActs(entries, Some(limit))
    ensures var kept := Kept(entries, Top(Levels(entries), limit));
      |kept| <= limit <==> |entries| <= limit || NoDuplicates(kept)
  {
    var levels := Levels(entries);
    var top := Top(levels, limit);
    KeptMembers(entries, top);
    KeptLevels(entries, top);
  }

  /** Two models at the top priority and one below: with a limit of one, two keep their load. */
  lemma TwoModelsKept<K>(entries: seq<Entry<K>>)
    requires |entries| == 3 && entries[0].load.priority == entries[1].load.priority > entries[2].load.priority
    ensures PriorityActs(entries, Some(1)) && |Kept(entries, Top(Levels(entries), 1))| == 2
  {
    TwoLevels(entries);
    var p := entries[0].load.priority;
    var top := Top(Levels(entries), 1);
    assert top == [p];
    KeptSnoc(entries, top, 1);
    KeptSnoc(entries, top, 2);
    KeptSnoc(entries, top, 3);
    assert entries[..3] == entries && entries[..0] == [];
  }

  lemma KeptSnoc<K>(entries: seq<Entry<K>>, priorities: seq<int>, n: nat)
    requires 0 < n <= |entries|
    ensures Kept(entries[..n], priorities)
         == Kept(entries[..n - 1], priorities)
            + if entries[n - 1].load.priority in priorities then [entries[n - 1].load.priority] else []
  {
    assert entries[..n][..n - 1] == entries[..n - 1];
  }

  lemma TwoLevels<K>(entries: seq<Entry<K>>)
    requires |entries| == 3 && entries[0].load.priority == entries[1].load.priority > entries[2].load.priority
    ensures Levels(entries) == [entries[0].load.priority, entries[2].load.priority]
  {
    var p, q := entries[0].load.priority, entries[2].load.priority;
    assert entries[..2][..1] == entries[..1] && entries[..1][..0] == [];
    assert Levels(entries[..1]) == Insert([], p) == [p];
    assert Levels(entries[..2]) == Insert([p], p) == [p];
    assert entries[..|entries| - 1] == entries[..2] && [p][1..] == [];
    assert Levels(entries) == Insert([p], q) == [p] + Insert([], q);
  }

  lemma TopIsAboveLast(levels: seq<int>, n: nat, p: int)
    requires Descending(levels) && 0 < n <= |levels| && p in levels
    ensures p in levels[..n] <==> p >= levels[n - 1]
  {
    var at :| 0 <= at < |levels| && levels[at] == p;
    assert at < n ==> levels[..n][at] == p;
  }
}
