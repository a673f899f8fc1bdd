/** The chains of sub-tasks an analysis runs, the slugs of their status rows, and the ids Celery hands
    back for them: src/server/oasisapi/analyses/v2_api/task_controller.py. */
module TaskCanvas {
  import opened Arithmetic
  import opened Options
  import opened Sequences

  /** One link of a chain: a task, or a chord of parallel tasks followed by its body. */
  datatype Step = Task(slug: string) | Chord(header: seq<string>, body: string)

  /** Slugs of a chord's parallel tasks. */
  function ChordSlugs(slug: string, k: nat): (slugs: seq<string>)
    ensures |slugs| == k
  {
    seq(k, idx requires 0 <= idx => ChordSlug(slug, idx))
  }

  function ChordSlug(slug: string, idx: nat): string {
    slug + "-" + Decimal(idx)
  }

  /** `get_subchord_statuses_and_signature` unpacks at least one parallel task: `None` for its error. */
  function Subchord(slug: string, k: nat, body: string): Option<Step> {
    if k == 0 then None else Some(Chord(ChordSlugs(slug, k), body))
  }

  function InputSteps(k: nat): Option<seq<Step>> {
    var keys := Subchord("prepare-keys-file", k, "collect-keys");
    if keys.None? then None
    else Some([Task("prepare-input-generation-params"), Task("pre-analysis-hook"), keys.value,
               Task("write-input-files"), Task("record-input-files"), Task("cleanup-input-generation")])
  }

  function LossSteps(k: nat): Option<seq<Step>> {
    var losses := Subchord("generate-losses-chunk", k, "generate-losses-output");
    if losses.None? then None
    else Some([Task("prepare-losses-generation-params"), Task("prepare-losses-generation-directory"), losses.value,
               Task("record-losses-files"), Task("cleanup-losses-generation")])
  }

  /** The status rows a chain is created with, in order: each chord's parallel tasks, then its body. */
  function StatusSlugs(steps: seq<Step>): seq<string> {
    if steps == [] then [] else StatusSlugs(steps[..|steps| - 1]) + StepSlugs(steps[|steps| - 1])
  }

  function StepSlugs(step: Step): seq<string> {
    match step
    case Task(slug) => [slug]
    case Chord(header, body) => header + [body]
  }

  // ---- slugs are distinct --------------------------------------------------

  lemma NoDuplicatesAppend<T>(a: seq<T>, b: seq<T>)
    requires NoDuplicates(a) && NoDuplicates(b) && forall x :: x in a ==> x !in b
    ensures NoDuplicates(a + b)
  {
    assert forall i :: 0 <= i < |a| ==> a[i] in a;
    assert forall i :: 0 <= i < |b| ==> b[i] in b;
  }

  /** A slug that does not end in a number. */
  predicate Unnumbered(slug: string) {
    slug != [] && !('0' <= slug[|slug| - 1] <= '9')
  }

  lemma ChordSlugsDiffer(slug: string, k: nat)
    ensures NoDuplicates(ChordSlugs(slug, k))
    ensures forall s :: s in ChordSlugs(slug, k) ==> slug < s && !Unnumbered(s)
  {
    forall i: nat, j: nat | i < j < k
      ensures ChordSlug(slug, i) != ChordSlug(slug, j)
    {
      NumberedNamesDiffer(slug + "-", i, j);
      assert ChordSlug(slug, i) + "" == ChordSlug(slug, i) && ChordSlug(slug, j) + "" == ChordSlug(slug, j);
    }
    forall i: nat | i < k
      ensures slug < ChordSlug(slug, i) && !Unnumbered(ChordSlug(slug, i))
    {
      assert ChordSlug(slug, i)[..|slug|] == slug;
    }
  }

  const INPUT_SINGLES := ["prepare-input-generation-params", "pre-analysis-hook", "collect-keys",
                          "write-input-files", "record-input-files", "cleanup-input-generation"]

  const LOSS_SINGLES := ["prepare-losses-generation-params", "prepare-losses-generation-directory", "generate-losses-output",
                         "record-losses-files", "cleanup-losses-generation"]

  lemma StatusSlugsSnoc(steps: seq<Step>, step: Step)
    ensures StatusSlugs(steps + [step]) == StatusSlugs(steps) + StepSlugs(step)
  {
  }

  lemma {:induction false} StatusSlugsAppend(a: seq<Step>, b: seq<Step>)
    ensures StatusSlugs(a + b) == StatusSlugs(a) + StatusSlugs(b)
  {
    if b == [] {
      assert a + b == a;
    } else {
      var init, last := b[..|b| - 1], b[|b| - 1];
      calc {
        StatusSlugs(a + b);
        { assert a + b == (a + init) + [last]; StatusSlugsSnoc(a + init, last); }
        StatusSlugs(a + init) + StepSlugs(last);
        { StatusSlugsAppend(a, init); }
        StatusSlugs(a) + (StatusSlugs(init) + StepSlugs(last));
      }
    }
  }

  lemma ChainSlugs(before: seq<string>, chord: Step, after: seq<string>, steps: seq<Step>)
    requires chord.Chord?
    requires steps == Tasks(before) + [chord] + Tasks(after)
    ensures StatusSlugs(steps) == before + (chord.header + [chord.body]) + after
  {
    TasksSlugs(before);
    TasksSlugs(after);
    StatusSlugsAppend(Tasks(before) + [chord], Tasks(after));
    StatusSlugsAppend(Tasks(before), [chord]);
    assert [chord][..0] == [];
    assert StatusSlugs([chord]) == StepSlugs(chord);
  }

  function Tasks(slugs: seq<string>): seq<Step> {
    seq(|slugs|, i requires 0 <= i < |slugs| => Task(slugs[i]))
  }

  lemma {:induction false} TasksSlugs(slugs: seq<string>)
    ensures StatusSlugs(Tasks(slugs)) == slugs
  {
    if slugs != [] {
      TasksSlugs(slugs[..|slugs| - 1]);
      assert Tasks(slugs)[..|slugs| - 1] == Tasks(slugs[..|slugs| - 1]);
    }
  }

  lemma InputSlugs(k: nat)
    requires k > 0
    ensures InputSteps(k).Some?
    ensures StatusSlugs(InputSteps(k).value) == INPUT_SINGLES[..2] + ChordSlugs("prepare-keys-file", k) + INPUT_SINGLES[2..]
  {
    var chord := Chord(ChordSlugs("prepare-keys-file", k), "collect-keys");
    var before, after := INPUT_SINGLES[..2], INPUT_SINGLES[3..];
    assert InputSteps(k).value == Tasks(before) + [chord] + Tasks(after);
    ChainSlugs(before, chord, after, InputSteps(k).value);
    assert [chord.body] + after == INPUT_SINGLES[2..];
    assert before + (chord.header + [chord.body]) + after == before + chord.header + ([chord.body] + after);
  }

  lemma LossSlugs(k: nat)
    requires k > 0
    ensures LossSteps(k).Some?
    ensures StatusSlugs(LossSteps(k).value) == LOSS_SINGLES[..2] + ChordSlugs("generate-losses-chunk", k) + LOSS_SINGLES[2..]
  {
    var chord := Chord(ChordSlugs("generate-losses-chunk", k), "generate-losses-output");
    var before, after := LOSS_SINGLES[..2], LOSS_SINGLES[3..];
    assert LossSteps(k).value == Tasks(before) + [chord] + Tasks(after);
    ChainSlugs(before, chord, after, LossSteps(k).value);
    assert [chord.body] + after == LOSS_SINGLES[2..];
    assert before + (chord.header + [chord.body]) + after == before + chord.header + ([chord.body] + after);
  }

  lemma ChainIsDistinct(singles: seq<string>, header: seq<string>)
    requires |singles| >= 2 && NoDuplicates(singles) && NoDuplicates(header)
    requires (forall s :: s in singles ==> Unnumbered(s)) && forall s :: s in header ==> !Unnumbered(s)
    ensures NoDuplicates(singles[..2] + header + singles[2..])
    ensures forall s :: s in singles[..2] + header + singles[2..] <==> s in singles || s in header
  {
    assert singles == singles[..2] + singles[2..];
    NoDuplicatesAppend(singles[..2], header);
    NoDuplicatesAppend(singles[..2] + header, singles[2..]);
  }

  lemma SinglesApart()
    ensures NoDuplicates(INPUT_SINGLES) && NoDuplicates(LOSS_SINGLES)
    ensures forall s :: s in INPUT_SINGLES ==> Unnumbered(s) && s !in LOSS_SINGLES
    ensures forall s :: s in LOSS_SINGLES ==> Unnumbered(s)
  {
  }

  lemma InputSlugsDistinct(k: nat)
    requires k > 0
    ensures InputSteps(k).Some? && |StatusSlugs(InputSteps(k).value)| == k + 6
    ensures NoDuplicates(StatusSlugs(InputSteps(k).value))
    ensures forall s :: s in StatusSlugs(InputSteps(k).value) <==> s in INPUT_SINGLES || s in ChordSlugs("prepare-keys-file", k)
  {
    InputSlugs(k);
    SinglesApart();
    ChordSlugsDiffer("prepare-keys-file", k);
    ChainIsDistinct(INPUT_SINGLES, ChordSlugs("prepare-keys-file", k));
  }

  lemma LossSlugsDistinct(m: nat)
    requires m > 0
    ensures LossSteps(m).Some? && |StatusSlugs(LossSteps(m).value)| == m + 5
    ensures NoDuplicates(StatusSlugs(LossSteps(m).value))
    ensures forall s :: s in StatusSlugs(LossSteps(m).value) <==> s in LOSS_SINGLES || s in ChordSlugs("generate-losses-chunk", m)
  {
    LossSlugs(m);
    SinglesApart();
    ChordSlugsDiffer("generate-losses-chunk", m);
    ChainIsDistinct(LOSS_SINGLES, ChordSlugs("generate-losses-chunk", m));
  }

  lemma KeysAndLossesDiffer(k: nat, m: nat)
    ensures forall s :: s in ChordSlugs("prepare-keys-file", k) ==> !Unnumbered(s) && s !in ChordSlugs("generate-losses-chunk", m)
    ensures forall s :: s in ChordSlugs("generate-losses-chunk", m) ==> !Unnumbered(s)
  {
    ChordSlugsDiffer("prepare-keys-file", k);
    ChordSlugsDiffer("generate-losses-chunk", m);
    assert forall s :: s in ChordSlugs("prepare-keys-file", k) ==> s[0] == 'p';
    assert forall s :: s in ChordSlugs("generate-losses-chunk", m) ==> s[0] == 'g';
  }

  /** For every chunk count the input chain has its own `k + 6` slugs, the loss chain its own `m + 5`,
      and the two chains of a joint run share none. */
  lemma SlugsAreDistinct(k: nat, m: nat)
    requires k > 0 && m > 0
    ensures InputSteps(k).Some? && |StatusSlugs(InputSteps(k).value)| == k + 6
    ensures LossSteps(m).Some? && |StatusSlugs(LossSteps(m).value)| == m + 5
    ensures NoDuplicates(StatusSlugs(InputSteps(k).value)) && NoDuplicates(StatusSlugs(LossSteps(m).value))
    ensures NoDuplicates(StatusSlugs(InputSteps(k).value + LossSteps(m).value))
  {
    StatusSlugsAppend(InputSteps(k).GetOr([]), LossSteps(m).GetOr([]));
    InputSlugsDistinct(k);
    LossSlugsDistinct(m);
    KeysAndLossesDiffer(k, m);
    SinglesApart();
    NoDuplicatesAppend(StatusSlugs(InputSteps(k).value), StatusSlugs(LossSteps(m).value));
  }

  // ---- celery results ------------------------------------------------------

  /** One result of a dispatched chain: of a task, or of a group of parallel tasks. */
  datatype Node = Single(id: string) | Group(children: seq<string>)

  /** The results of a chain's steps, given the id Celery assigns to each slug. */
  function Nodes(steps: seq<Step>, idOf: string -> string): seq<Node> {
    if steps == [] then [] else Nodes(steps[..|steps| - 1], idOf) + StepNodes(steps[|steps| - 1], idOf)
  }

  function StepNodes(step: Step, idOf: string -> string): seq<Node> {
    match step
    case Task(slug) => [Single(idOf(slug))]
    case Chord(header, body) => [Group(Ids(header, idOf)), Single(idOf(body))]
  }

  function Ids(slugs: seq<string>, idOf: string -> string): (ids: seq<string>)
    ensures |ids| == |slugs|
  {
    seq(|slugs|, i requires 0 <= i < |slugs| => idOf(slugs[i]))
  }

  /** A result object links to the result it waits for. */
  datatype Result = Result(node: Node, parent: Option<Result>)

  function ResultOf(nodes: seq<Node>): Option<Result> {
    if nodes == [] then None else Some(Result(nodes[|nodes| - 1], ResultOf(nodes[..|nodes| - 1])))
  }

  function NodeIds(node: Node): seq<string> {
    match node
    case Single(id) => [id]
    case Group(children) => children
  }

  function FlatIds(nodes: seq<Node>): seq<string> {
    if nodes == [] then [] else FlatIds(nodes[..|nodes| - 1]) + NodeIds(nodes[|nodes| - 1])
  }

  /** Ids collected from a result and its parents, nearest first, each group back to front. */
  function AncestorIds(result: Option<Result>): seq<string>
    decreases result
  {
    if result.None? then [] else Reversed(NodeIds(result.value.node)) + AncestorIds(result.value.parent)
  }

  /** `extract_celery_task_ids`: the id of the last result, then those met on the way up its parents. */
  method ExtractCeleryTaskIds(last: Result) returns (ids: seq<string>)
    requires last.node.Single?
    ensures ids == [last.node.id] + AncestorIds(last.parent)
  {
    ids := [last.node.id];
    var parent := last.parent;
    while parent.Some?
      invariant ids + AncestorIds(parent) == [last.node.id] + AncestorIds(last.parent)
      decreases parent
    {
      var node := parent.value.node;
      assert AncestorIds(parent) == Reversed(NodeIds(node)) + AncestorIds(parent.value.parent);
      assert ids + AncestorIds(parent) == ids + Reversed(NodeIds(node)) + AncestorIds(parent.value.parent);
      if node.Single? {
        assert Reversed([node.id]) == [node.id];
        ids := ids + [node.id];
      } else {
        ids := ids + Reversed(node.children);
      }
      parent := parent.value.parent;
    }
  }

  lemma {:induction false} AncestorIdsAreReversed(nodes: seq<Node>)
    ensures AncestorIds(ResultOf(nodes)) == Reversed(FlatIds(nodes))
  {
    if nodes != [] {
      AncestorIdsAreReversed(nodes[..|nodes| - 1]);
      ReversedAppend(FlatIds(nodes[..|nodes| - 1]), NodeIds(nodes[|nodes| - 1]));
    }
  }

  lemma {:induction false} FlatIdsOfNodes(steps: seq<Step>, idOf: string -> string)
    ensures FlatIds(Nodes(steps, idOf)) == Ids(StatusSlugs(steps), idOf)
    ensures steps != [] ==> Nodes(steps, idOf) != [] && Nodes(steps, idOf)[|Nodes(steps, idOf)| - 1].Single?
  {
    if steps != [] {
      var init, last := steps[..|steps| - 1], steps[|steps| - 1];
      FlatIdsOfNodes(init, idOf);
      FlatIdsOfStep(Nodes(init, idOf), last, idOf);
      IdsAppend(StatusSlugs(init), StepSlugs(last), idOf);
    }
  }

  lemma IdsAppend(a: seq<string>, b: seq<string>, idOf: string -> string)
    ensures Ids(a + b, idOf) == Ids(a, idOf) + Ids(b, idOf)
  {
  }

  lemma FlatIdsSnoc(nodes: seq<Node>, node: Node)
    ensures FlatIds(nodes + [node]) == FlatIds(nodes) + NodeIds(node)
  {
  }

  lemma FlatIdsOfStep(nodes: seq<Node>, step: Step, idOf: string -> string)
    ensures FlatIds(nodes + StepNodes(step, idOf)) == FlatIds(nodes) + Ids(StepSlugs(step), idOf)
  {
    match step {
      case Task(slug) =>
        FlatIdsSnoc(nodes, Single(idOf(slug)));
        assert Ids([slug], idOf) == [idOf(slug)];
      case Chord(header, body) =>
        var group, single := Group(Ids(header, idOf)), Single(idOf(body));
        calc {
          FlatIds(nodes + [group, single]);
          { assert nodes + [group, single] == nodes + [group] + [single]; FlatIdsSnoc(nodes + [group], single); }
          FlatIds(nodes + [group]) + [idOf(body)];
          { FlatIdsSnoc(nodes, group); }
          FlatIds(nodes) + (Ids(header, idOf) + [idOf(body)]);
          { IdsAppend(header, [body], idOf); assert Ids([body], idOf) == [idOf(body)]; }
          FlatIds(nodes) + Ids(header + [body], idOf);
        }
    }
  }

  /** The extracted list is the ids of the chain's own status rows, back to front. */
  lemma ExtractedIdsMirrorStatuses(steps: seq<Step>, idOf: string -> string)
    requires steps != []
    ensures ResultOf(Nodes(steps, idOf)).Some? && ResultOf(Nodes(steps, idOf)).value.node.Single?
    ensures var last := ResultOf(Nodes(steps, idOf)).value;
      [last.node.id] + AncestorIds(last.parent) == Reversed(Ids(StatusSlugs(steps), idOf))
  {
    var nodes := Nodes(steps, idOf);
    FlatIdsOfNodes(steps, idOf);
    AncestorIdsAreReversed(nodes);
    var id := nodes[|nodes| - 1].id;
    assert Reversed([id]) == [id];
  }
}
