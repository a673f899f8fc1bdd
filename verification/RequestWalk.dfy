/** Collecting the sub-task ids out of a nested Celery request: `update_all_tasks_ids` in
    src/model_execution_worker/distributed_tasks.py. */
module RequestWalk {
  import opened Options
  import opened Sequences

  /** What one recorded sub-task sends to the API: (task id, analysis id, slug). */
  datatype TaskUpdate = TaskUpdate(taskId: string, analysis: nat, slug: string)

  /** A serialized signature: its own sub-task, when its kwargs carry an analysis id, and the nested
      signatures under kwargs `tasks`, `body` and `header`. */
  datatype Request = Request(update: Option<TaskUpdate>, tasks: seq<Request>, body: Option<Request>, header: Option<Request>)

  /** The signatures the walk visits below one: the tasks of its body, then those of its header.
      The body and header signatures themselves are not among them. */
  function Nested(r: Request): seq<Request> {
    (if r.body.Some? then r.body.value.tasks else []) + (if r.header.Some? then r.header.value.tasks else [])
  }

  function Own(r: Request): seq<TaskUpdate> {
    if r.update.Some? then [r.update.value] else []
  }

  // ---- termination measure -------------------------------------------------

  function Weight(r: Request): (n: nat)
    ensures n > 0
    decreases r
  {
    1 + Weights(r.tasks) + (if r.body.Some? then Weight(r.body.value) else 0)
    + (if r.header.Some? then Weight(r.header.value) else 0)
  }

  function Weights(rs: seq<Request>): nat
    decreases rs
  {
    if rs == [] then 0 else Weight(rs[0]) + Weights(rs[1..])
  }

  lemma {:induction false} WeightsAppend(a: seq<Request>, b: seq<Request>)
    ensures Weights(a + b) == Weights(a) + Weights(b)
  {
    if a == [] {
      assert a + b == b;
    } else {
      WeightsAppend(a[1..], b);
      assert (a + b)[1..] == a[1..] + b;
    }
  }

  lemma NestedWeighsLess(r: Request)
    ensures Weights(Nested(r)) < Weight(r)
  {
    WeightsAppend(if r.body.Some? then r.body.value.tasks else [], if r.header.Some? then r.header.value.tasks else []);
  }

  // ---- reference listings --------------------------------------------------

  /** Every sub-task a request holds, wherever it is. */
  function All(r: Request): seq<TaskUpdate>
    decreases r
  {
    Own(r) + AllOf(r.tasks) + (if r.body.Some? then All(r.body.value) else []) + (if r.header.Some? then All(r.header.value) else [])
  }

  function AllOf(rs: seq<Request>): seq<TaskUpdate>
    decreases rs
  {
    if rs == [] then [] else All(rs[0]) + AllOf(rs[1..])
  }

  /** Everything a body or header holds except its tasks. */
  function Beside(r: Option<Request>): seq<TaskUpdate> {
    if r.None? then []
    else
      Own(r.value) + (if r.value.body.Some? then All(r.value.body.value) else [])
      + (if r.value.header.Some? then All(r.value.header.value) else [])
  }

  /** What the walk passes over when it visits a signature: the signature's own tasks, and all that its
      body and header hold beside theirs. */
  function Skipped(r: Request): seq<TaskUpdate> {
    AllOf(r.tasks) + Beside(r.body) + Beside(r.header)
  }

  /** Nothing is passed over at the signature or at any signature visited below it. */
  predicate Exposed(rs: seq<Request>)
    decreases Weights(rs)
  {
    rs == [] || (NestedWeighsLess(rs[0]); Skipped(rs[0]) == [] && Exposed(Nested(rs[0])) && Exposed(rs[1..]))
  }

  /** Every sub-task reachable from `rs` along the walk's nesting, one tree after another. */
  function TreeListing(rs: seq<Request>): seq<TaskUpdate>
    decreases Weights(rs)
  {
    if rs == [] then []
    else
      NestedWeighsLess(rs[0]);
      Own(rs[0]) + TreeListing(Nested(rs[0])) + TreeListing(rs[1..])
  }

  function NestedAll(rs: seq<Request>): (kids: seq<Request>)
    ensures Weights(kids) <= Weights(rs)
    ensures rs != [] ==> Weights(kids) < Weights(rs)
    decreases |rs|
  {
    if rs == [] then []
    else
      NestedWeighsLess(rs[0]);
      WeightsAppend(Nested(rs[0]), NestedAll(rs[1..]));
      Nested(rs[0]) + NestedAll(rs[1..])
  }

  function OwnAll(rs: seq<Request>): seq<TaskUpdate> {
    if rs == [] then [] else Own(rs[0]) + OwnAll(rs[1..])
  }

  /** The recorded sub-tasks level by level, starting with `level`. */
  function LevelOrder(level: seq<Request>): seq<TaskUpdate>
    decreases Weights(level)
  {
    if level == [] then [] else OwnAll(level) + LevelOrder(NestedAll(level))
  }

  // ---- the walk ------------------------------------------------------------

  /** What the worklist still has to record when it holds `queue`. */
  function Walk(queue: seq<Request>): seq<TaskUpdate>
    decreases Weights(queue)
  {
    if queue == [] then []
    else
      NextWeighsLess(queue);
      Own(queue[0]) + Walk(queue[1..] + Nested(queue[0]))
  }

  lemma NextWeighsLess(queue: seq<Request>)
    requires queue != []
    ensures Weights(queue[1..] + Nested(queue[0])) < Weights(queue)
  {
    WeightsAppend(queue[1..], Nested(queue[0]));
    NestedWeighsLess(queue[0]);
  }

  lemma WalkStep(first: Request, rest: seq<Request>)
    ensures Walk([first] + rest) == Own(first) + Walk(rest + Nested(first))
    ensures Weights(rest + Nested(first)) < Weights([first] + rest)
  {
    NextWeighsLess([first] + rest);
    assert ([first] + rest)[1..] == rest;
  }

  /** `update_all_tasks_ids` on a request's chain, of which it walks the first entry; a request without a
      chain raises. The worklist loop pops the first signature, records it, and appends what is nested
      in it. It ends, having listed level by level part of what the chain holds: all of it exactly when
      the first entry is exposed and the others hold nothing. */
  method UpdateAllTaskIds(chain: seq<Request>) returns (updates: Option<seq<TaskUpdate>>)
    ensures updates.None? <==> chain == []
    ensures updates.Some? ==>
      && updates.value == LevelOrder([chain[0]])
      && multiset(updates.value) <= multiset(AllOf(chain))
      && (multiset(updates.value) == multiset(AllOf(chain)) <==> Exposed([chain[0]]) && AllOf(chain[1..]) == [])
  {
    if chain == [] {
      return None;
    }
    var listed := Drain([chain[0]]);
    WalkInLevels([chain[0]]);
    ChainListedIffExposed(chain);
    updates := Some(listed);
  }

  method Drain(initial: seq<Request>) returns (updates: seq<TaskUpdate>)
    ensures updates == Walk(initial)
  {
    var queue := initial;
    updates := [];
    while queue != []
      invariant updates + Walk(queue) == Walk(initial)
      decreases Weights(queue)
    {
      var current, rest := queue[0], queue[1..];
      WalkStep(current, rest);
      assert queue == [current] + rest;
      Regroup(updates, Own(current), Walk(rest + Nested(current)), []);
      updates, queue := RecordAndExtend(current, updates, rest);
    }
  }

  /** One turn of the loop, after the pop. */
  method RecordAndExtend(current: Request, updates: seq<TaskUpdate>, queue: seq<Request>)
    returns (updates': seq<TaskUpdate>, queue': seq<Request>)
    ensures updates' == updates + Own(current)
    ensures queue' == queue + Nested(current)
  {
    updates', queue' := updates, queue;
    if current.update.Some? {
      updates' := updates' + [current.update.value];
    }
    if current.body.Some? {
      queue' := queue' + current.body.value.tasks;
    }
    if current.header.Some? {
      queue' := queue' + current.header.value.tasks;
    }
  }

  /** Working off a level leaves the walk with exactly the next level. */
  lemma {:induction false} WalkLevel(level: seq<Request>, next: seq<Request>)
    ensures Walk(level + next) == OwnAll(level) + Walk(next + NestedAll(level))
    decreases |level|
  {
    if level == [] {
      assert level + next == next && next + NestedAll(level) == next;
    } else {
      var first, rest := level[0], level[1..];
      assert level == [first] + rest;
      WalkPast(first, rest, next);
      WalkLevel(rest, next + Nested(first));
      HeadOfLevel(first, rest);
      Regroup(next, Nested(first), NestedAll(rest), []);
      Regroup([], Own(first), OwnAll(rest), Walk(next + Nested(first) + NestedAll(rest)));
    }
  }

  lemma HeadOfLevel(first: Request, rest: seq<Request>)
    ensures OwnAll([first] + rest) == Own(first) + OwnAll(rest)
    ensures NestedAll([first] + rest) == Nested(first) + NestedAll(rest)
  {
  }

  lemma WalkPast(first: Request, rest: seq<Request>, next: seq<Request>)
    ensures Walk([first] + rest + next) == Own(first) + Walk(rest + (next + Nested(first)))
  {
    WalkStep(first, rest + next);
    Regroup([first], rest, next, Nested(first));
  }

  /** The walk is level order. */
  lemma {:induction false} WalkInLevels(level: seq<Request>)
    ensures Walk(level) == LevelOrder(level)
    decreases Weights(level)
  {
    if level != [] {
      WalkLevel(level, []);
      assert level + [] == level && [] + NestedAll(level) == NestedAll(level);
      WalkInLevels(NestedAll(level));
    }
  }

  lemma TreeListingStep(first: Request, rest: seq<Request>)
    ensures TreeListing([first] + rest) == Own(first) + TreeListing(Nested(first)) + TreeListing(rest)
  {
  }

  lemma {:induction false} TreeListingAppend(a: seq<Request>, b: seq<Request>)
    ensures TreeListing(a + b) == TreeListing(a) + TreeListing(b)
    decreases |a|
  {
    if a == [] {
      assert a + b == b;
    } else {
      var first, rest := a[0], a[1..];
      TreeListingAppend(rest, b);
      Regroup([first], rest, b, []);
      TreeListingStep(first, rest + b);
      TreeListingStep(first, rest);
      Regroup(Own(first) + TreeListing(Nested(first)), TreeListing(rest), TreeListing(b), []);
      assert a == [first] + rest;
    }
  }

  /** The walk records each sub-task of the trees exactly as often as they hold it. */
  lemma {:induction false} WalkListsTrees(queue: seq<Request>)
    ensures multiset(Walk(queue)) == multiset(TreeListing(queue))
    decreases Weights(queue)
  {
    if queue != [] {
      NextWeighsLess(queue);
      WalkListsTrees(queue[1..] + Nested(queue[0]));
      TreeListingAppend(queue[1..], Nested(queue[0]));
    }
  }

  // ---- what the walk misses ------------------------------------------------

  /** What the walk passes over, all in all, when the worklist holds `queue`. */
  function Lost(queue: seq<Request>): seq<TaskUpdate>
    decreases Weights(queue)
  {
    if queue == [] then []
    else
      NextWeighsLess(queue);
      Skipped(queue[0]) + Lost(queue[1..] + Nested(queue[0]))
  }

  lemma AllOfStep(first: Request, rest: seq<Request>)
    ensures AllOf([first] + rest) == All(first) + AllOf(rest)
  {
    assert ([first] + rest)[1..] == rest;
  }

  lemma {:induction false} AllOfAppend(a: seq<Request>, b: seq<Request>)
    ensures AllOf(a + b) == AllOf(a) + AllOf(b)
    decreases |a|
  {
    if a == [] {
      assert a + b == b;
    } else {
      var first, rest := a[0], a[1..];
      AllOfAppend(rest, b);
      Regroup([first], rest, b, []);
      AllOfStep(first, rest + b);
      AllOfStep(first, rest);
      Regroup(All(first), AllOf(rest), AllOf(b), []);
      assert a == [first] + rest;
    }
  }

  lemma BesideAndTasks(r: Option<Request>)
    ensures multiset(if r.Some? then All(r.value) else [])
         == multiset(Beside(r)) + multiset(AllOf(if r.Some? then r.value.tasks else []))
  {
  }

  /** A signature holds itself, what is passed over at it, and what is nested along the walk. */
  lemma AllInParts(r: Request)
    ensures multiset(All(r)) == multiset(Own(r)) + multiset(Skipped(r)) + multiset(AllOf(Nested(r)))
  {
    AllByParts(r);
    BesideAndTasks(r.body);
    BesideAndTasks(r.header);
    var bodyTasks := if r.body.Some? then r.body.value.tasks else [];
    var headerTasks := if r.header.Some? then r.header.value.tasks else [];
    AllOfAppend(bodyTasks, headerTasks);
    SumInParts(multiset(Own(r)), multiset(AllOf(r.tasks)), multiset(Beside(r.body)), multiset(Beside(r.header)),
               multiset(AllOf(bodyTasks)), multiset(AllOf(headerTasks)));
  }

  lemma SumInParts<T>(own: multiset<T>, tasks: multiset<T>, b: multiset<T>, h: multiset<T>, bt: multiset<T>, ht: multiset<T>)
    ensures own + tasks + (b + bt) + (h + ht) == own + (tasks + b + h) + (bt + ht)
  {
  }

  lemma AllByParts(r: Request)
    ensures multiset(All(r)) == multiset(Own(r)) + multiset(AllOf(r.tasks))
      + multiset(if r.body.Some? then All(r.body.value) else []) + multiset(if r.header.Some? then All(r.header.value) else [])
    ensures multiset(Skipped(r)) == multiset(AllOf(r.tasks)) + multiset(Beside(r.body)) + multiset(Beside(r.header))
  {
  }

  lemma AllOfNext(queue: seq<Request>)
    requires queue != []
    ensures multiset(AllOf(queue))
         == multiset(Own(queue[0])) + multiset(Skipped(queue[0])) + multiset(AllOf(queue[1..] + Nested(queue[0])))
  {
    AllInParts(queue[0]);
    AllOfAppend(queue[1..], Nested(queue[0]));
  }

  /** Every sub-task is either listed or passed over, each as often as it is held. */
  lemma {:induction false} ListedOrLost(queue: seq<Request>)
    ensures multiset(AllOf(queue)) == multiset(Walk(queue)) + multiset(Lost(queue))
    decreases Weights(queue)
  {
    if queue != [] {
      NextWeighsLess(queue);
      AllOfNext(queue);
      ListedOrLost(queue[1..] + Nested(queue[0]));
    }
  }

  lemma {:induction false} ExposedAppend(a: seq<Request>, b: seq<Request>)
    ensures Exposed(a + b) <==> Exposed(a) && Exposed(b)
    decreases |a|
  {
    if a == [] {
      assert a + b == b;
    } else {
      ExposedAppend(a[1..], b);
      assert (a + b)[1..] == a[1..] + b && (a + b)[0] == a[0];
    }
  }

  lemma {:induction false} NothingLostIffExposed(queue: seq<Request>)
    ensures Lost(queue) == [] <==> Exposed(queue)
    decreases Weights(queue)
  {
    if queue != [] {
      NextWeighsLess(queue);
      NothingLostIffExposed(queue[1..] + Nested(queue[0]));
      ExposedAppend(queue[1..], Nested(queue[0]));
    }
  }

  /** The walk of a chain's first entry never lists more than the chain holds, and lists all of it exactly
      when that entry is exposed - no signature visited has tasks of its own or a body or header that
      holds anything beside its tasks - and no other entry holds a sub-task. */
  lemma ChainListedIffExposed(chain: seq<Request>)
    requires chain != []
    ensures multiset(Walk([chain[0]])) <= multiset(AllOf(chain))
    ensures multiset(Walk([chain[0]])) == multiset(AllOf(chain)) <==> Exposed([chain[0]]) && AllOf(chain[1..]) == []
  {
    var first, rest := chain[0], chain[1..];
    assert chain == [first] + rest;
    ListedOrLost([first]);
    NothingLostIffExposed([first]);
    ChainInParts(first, rest);
    PartOfHead(AllOf([first]), AllOf(rest), Walk([first]), Lost([first]));
  }

  lemma ChainInParts(first: Request, rest: seq<Request>)
    ensures AllOf([first] + rest) == AllOf([first]) + AllOf(rest)
  {
    AllOfAppend([first], rest);
  }

  lemma PartOfHead<T>(head: seq<T>, tail: seq<T>, part: seq<T>, rest: seq<T>)
    requires multiset(head) == multiset(part) + multiset(rest)
    ensures multiset(part) <= multiset(head + tail)
    ensures multiset(part) == multiset(head + tail) <==> rest == [] && tail == []
  {
    PartAndRest(head + tail, part, rest + tail);
  }

  /** A chain of two plain tasks: the second is not listed. */
  lemma SecondEntryIsMissed(u: TaskUpdate, v: TaskUpdate)
    ensures
      var chain := [Request(Some(u), [], None, None), Request(Some(v), [], None, None)];
      Walk([chain[0]]) == [u] && AllOf(chain) == [u, v] && Exposed([chain[0]])
  {
    var first, second := Request(Some(u), [], None, None), Request(Some(v), [], None, None);
    WalkStep(first, []);
    AllOfStep(first, [second]);
    AllOfStep(second, []);
    assert [first] + [] == [first] && [] + Nested(first) == [] && [second] + [] == [second];
    assert [first] + [second] == [first, second];
  }

  lemma PartAndRest<T>(all: seq<T>, part: seq<T>, rest: seq<T>)
    requires multiset(all) == multiset(part) + multiset(rest)
    ensures multiset(part) <= multiset(all)
    ensures multiset(part) == multiset(all) <==> rest == []
  {
    assert |multiset(all)| == |multiset(part)| + |rest|;
  }

  /** A chord of one parallel task, whose body is a plain task. */
  function SmallChord(task: TaskUpdate, body: TaskUpdate): Request {
    Request(None, [], Some(Request(Some(body), [], None, None)),
            Some(Request(None, [Request(Some(task), [], None, None)], None, None)))
  }

  /** Of that chord the parallel task is listed, the body is not. */
  lemma ChordBodyIsMissed(task: TaskUpdate, body: TaskUpdate)
    ensures Walk([SmallChord(task, body)]) == [task] && All(SmallChord(task, body)) == [body, task]
    ensures !Exposed([SmallChord(task, body)])
  {
    SmallChordWalk(task, body);
    SmallChordHeld(task, body);
  }

  lemma SmallChordHeld(task: TaskUpdate, body: TaskUpdate)
    ensures All(SmallChord(task, body)) == [body, task]
    ensures Skipped(SmallChord(task, body)) == [body]
  {
    var parallel := Request(Some(task), [], None, None);
    AllOfStep(parallel, []);
    assert [parallel] + [] == [parallel];
  }

  lemma SmallChordWalk(task: TaskUpdate, body: TaskUpdate)
    ensures Walk([SmallChord(task, body)]) == [task]
  {
    var parallel, root := Request(Some(task), [], None, None), SmallChord(task, body);
    WalkStep(root, []);
    WalkStep(parallel, []);
    assert [root] + [] == [root] && [] + Nested(root) == [parallel] + [] && [] + Nested(parallel) == [];
  }
}
