/** The `AnalysisTaskStatus` table with the operations on it: creating a chain's rows, recording
    celery ids and the recording tasks. */
module SubTaskTable {
  import opened Options
  import opened Sequences
  import opened RequestWalk
  import opened SubTasks
  import opened TaskCanvas

  // ---- creating a chain's rows ---------------------------------------------

  function Without(rows: seq<Row>, analysis: nat): (kept: seq<Row>)
    ensures forall r :: r in kept <==> r in rows && r.analysis != analysis
    ensures |kept| <= |rows|
  {
    if rows == [] then []
    else
      var init, last := rows[..|rows| - 1], rows[|rows| - 1];
      assert rows == init + [last];
      Without(init, analysis) + if last.analysis == analysis then [] else [last]
  }

  /** Rows come in the order of their primary keys, all of them below the next one. */
  predicate InIdOrder(rows: seq<Row>, nextPk: nat) {
    && (forall i, j :: 0 <= i < j < |rows| ==> rows[i].pk < rows[j].pk)
    && (forall i :: 0 <= i < |rows| ==> rows[i].pk < nextPk)
  }

  lemma {:induction false} WithoutKeepsConstraints(rows: seq<Row>, analysis: nat)
    requires UniqueKeys(rows) && UniqueIds(rows)
    ensures UniqueKeys(Without(rows, analysis)) && UniqueIds(Without(rows, analysis))
  {
    if rows != [] {
      var init, last := rows[..|rows| - 1], rows[|rows| - 1];
      WithoutKeepsConstraints(init, analysis);
      var kept := Without(init, analysis);
      forall i | 0 <= i < |kept|
        ensures kept[i].analysis != last.analysis || kept[i].slug != last.slug
        ensures kept[i].taskId == "" || kept[i].taskId != last.taskId
      {
        assert kept[i] in init;
      }
      ConstraintsSnoc(kept, last);
    }
  }

  lemma ConstraintsSnoc(rows: seq<Row>, row: Row)
    requires UniqueKeys(rows) && UniqueIds(rows)
    requires forall i :: 0 <= i < |rows| ==> rows[i].analysis != row.analysis || rows[i].slug != row.slug
    requires forall i :: 0 <= i < |rows| ==> rows[i].taskId == "" || rows[i].taskId != row.taskId
    ensures UniqueKeys(rows + [row]) && UniqueIds(rows + [row])
  {
  }

  lemma {:induction false} WithoutKeepsOrder(rows: seq<Row>, analysis: nat, nextPk: nat)
    requires InIdOrder(rows, nextPk)
    ensures InIdOrder(Without(rows, analysis), nextPk)
  {
    if rows != [] {
      var init, last := rows[..|rows| - 1], rows[|rows| - 1];
      WithoutKeepsOrder(init, analysis, last.pk);
      InIdOrderSnoc(Without(init, analysis), last, nextPk);
    }
  }

  lemma InIdOrderSnoc(rows: seq<Row>, row: Row, nextPk: nat)
    requires InIdOrder(rows, row.pk) && row.pk < nextPk
    ensures InIdOrder(rows + [row], nextPk) && InIdOrder(rows, nextPk)
  {
  }

  function NewRows(pk: nat, analysis: nat, slugs: seq<string>): (rows: seq<Row>)
    ensures |rows| == |slugs|
  {
    seq(|slugs|, i requires 0 <= i < |slugs| => NewRow(pk + i, analysis, slugs[i]))
  }

  function Replaced(rows: seq<Row>, analysis: nat, slugs: seq<string>, pk: nat): seq<Row> {
    Without(rows, analysis) + NewRows(pk, analysis, slugs)
  }

  // ---- recording celery ids ------------------------------------------------

  /** `_record_subtask_ids` from row `i` on: it goes through the rows as they were `read`, and each
      row of the analysis takes the last id left, until the ids run out or the database refuses one.
      Just before it gets to row `i`, the messages `reports[i]` are delivered. */
  function Recorded(
      now: seq<Row>, read: seq<Row>, analysis: nat, ids: seq<string>, reports: seq<seq<Message>>, i: nat := 0): (rows': seq<Row>)
    requires i <= |now| == |read| == |reports|
    ensures |rows'| == |now|
    decreases |read| - i
  {
    if i == |read| then now
    else
      var before := Run(now, reports[i]);
      if read[i].analysis != analysis then Recorded(before, read, analysis, ids, reports, i + 1)
      else if ids == [] then before
      else
        var saved := SaveSnapshot(before, i, read[i], ids[|ids| - 1]);
        if UniqueIds(saved) then Recorded(saved, read, analysis, ids[..|ids| - 1], reports, i + 1) else before
  }

  /** The recorder stops at a row of the analysis for which no id is left or the database refuses it, and
      leaves that row and all further ones as reported so far. */
  lemma RecorderStops(
      now: seq<Row>, read: seq<Row>, analysis: nat, ids: seq<string>, reports: seq<seq<Message>>, i: nat)
    requires i < |now| == |read| == |reports| && read[i].analysis == analysis
    requires ids == [] || !UniqueIds(Run(now, reports[i])[i := read[i].(taskId := ids[|ids| - 1])])
    ensures Recorded(now, read, analysis, ids, reports, i) == Run(now, reports[i])
  {
  }

  /** Slugs of the analysis' rows from row `i` on. */
  function SlugsFrom(rows: seq<Row>, analysis: nat, i: nat := 0): seq<string>
    requires i <= |rows|
    decreases |rows| - i
  {
    if i == |rows| then []
    else (if rows[i].analysis == analysis then [rows[i].slug] else []) + SlugsFrom(rows, analysis, i + 1)
  }

  /** The ids of one analysis' tasks by slug. */
  function IdsOf(analysis: nat, idOf: (nat, string) -> string): string -> string {
    slug => idOf(analysis, slug)
  }

  /** The ids left for row `i` and the ones after it, last first. */
  function IdsLeft(rows: seq<Row>, analysis: nat, i: nat, idOf: (nat, string) -> string): seq<string>
    requires i <= |rows|
  {
    Reversed(Ids(SlugsFrom(rows, analysis, i), IdsOf(analysis, idOf)))
  }

  lemma SlugsFromStep(rows: seq<Row>, analysis: nat, i: nat)
    requires i < |rows|
    ensures SlugsFrom(rows, analysis, i)
         == if rows[i].analysis == analysis then [rows[i].slug] + SlugsFrom(rows, analysis, i + 1) else SlugsFrom(rows, analysis, i + 1)
  {
  }

  lemma IdsLeftStep(rows: seq<Row>, analysis: nat, i: nat, idOf: (nat, string) -> string)
    requires i < |rows|
    ensures IdsLeft(rows, analysis, i, idOf)
         == IdsLeft(rows, analysis, i + 1, idOf) + if rows[i].analysis == analysis then [idOf(analysis, rows[i].slug)] else []
  {
    SlugsFromStep(rows, analysis, i);
    if rows[i].analysis == analysis {
      LastIdFirst(rows[i].slug, SlugsFrom(rows, analysis, i + 1), IdsOf(analysis, idOf));
    }
  }

  ghost predicate AllNameOwnIds(reports: seq<seq<Message>>, idOf: (nat, string) -> string) {
    forall c, m :: 0 <= c < |reports| && m in reports[c] ==> NamesOwnIds(m, idOf)
  }

  /** The row as it was read, with the id of its own task. */
  function WithOwnId(row: Row, idOf: (nat, string) -> string): Row {
    row.(taskId := idOf(row.analysis, row.slug))
  }

  /** What becomes of row `j`, `now` before the recorder gets to row `i`: if it is still to be saved,
      whatever is reported up to then is lost. */
  function RowRecorded(
      now: Row, read: Row, j: nat, analysis: nat, idOf: (nat, string) -> string, reports: seq<seq<Message>>, i: nat): Row
    requires i <= |reports| && j < |reports|
  {
    if j < i || read.analysis != analysis then RowRun(now, Flatten(reports[i..]))
    else RowRun(WithOwnId(read, idOf), Flatten(reports[j + 1..]))
  }

  ghost predicate RowsRecorded(
      after: seq<Row>, now: seq<Row>, read: seq<Row>, analysis: nat, idOf: (nat, string) -> string,
      reports: seq<seq<Message>>, i: nat)
    requires i <= |now| == |read| == |reports|
  {
    |after| == |now| && forall j :: 0 <= j < |now| ==> after[j] == RowRecorded(now[j], read[j], j, analysis, idOf, reports, i)
  }

  /** One turn of the recorder, when the id is accepted. */
  function OneRecorded(
      now: seq<Row>, read: seq<Row>, analysis: nat, idOf: (nat, string) -> string, reports: seq<seq<Message>>, i: nat)
    : (rows': seq<Row>)
    requires i < |now| == |read| == |reports|
    ensures |rows'| == |now|
  {
    var before := Run(now, reports[i]);
    if read[i].analysis != analysis then before else before[i := WithOwnId(read[i], idOf)]
  }

  lemma OneRecordedKeeps(
      now: seq<Row>, read: seq<Row>, analysis: nat, idOf: (nat, string) -> string, reports: seq<seq<Message>>, i: nat)
    requires i < |now| == |read| == |reports|
    requires DistinctIds(idOf) && AllNameOwnIds(reports, idOf)
    requires SameKeys(read, now) && UniqueKeys(read) && OwnIds(now, idOf)
    ensures var after := OneRecorded(now, read, analysis, idOf, reports, i);
      SameKeys(read, after) && OwnIds(after, idOf) && UniqueIds(after)
    ensures forall j :: 0 <= j < |now| ==>
      OneRecorded(now, read, analysis, idOf, reports, i)[j]
      == if j == i && read[i].analysis == analysis then WithOwnId(read[i], idOf) else RowRun(now[j], reports[i])
  {
    RunRowWise(now, reports[i], idOf);
    OwnIdsAreUnique(OneRecorded(now, read, analysis, idOf, reports, i), idOf);
  }

  lemma RecordedStep(
      now: seq<Row>, read: seq<Row>, analysis: nat, idOf: (nat, string) -> string, reports: seq<seq<Message>>, i: nat)
    requires i < |now| == |read| == |reports|
    requires UniqueIds(OneRecorded(now, read, analysis, idOf, reports, i))
    ensures Recorded(now, read, analysis, IdsLeft(read, analysis, i, idOf), reports, i)
         == Recorded(OneRecorded(now, read, analysis, idOf, reports, i), read, analysis,
                     IdsLeft(read, analysis, i + 1, idOf), reports, i + 1)
  {
    IdsLeftStep(read, analysis, i, idOf);
    var rest, id := IdsLeft(read, analysis, i + 1, idOf), idOf(analysis, read[i].slug);
    if read[i].analysis == analysis {
      assert (rest + [id])[..|rest|] == rest;
    } else {
      assert rest + [] == rest;
    }
  }

  lemma RowRecordedStep(
      now: Row, read: Row, j: nat, analysis: nat, idOf: (nat, string) -> string, reports: seq<seq<Message>>, i: nat)
    requires i < |reports| && j < |reports|
    ensures RowRecorded(now, read, j, analysis, idOf, reports, i)
         == RowRecorded(if j == i && read.analysis == analysis then WithOwnId(read, idOf) else RowRun(now, reports[i]),
                        read, j, analysis, idOf, reports, i + 1)
  {
    assert reports[i..][0] == reports[i] && reports[i..][1..] == reports[i + 1..];
    RowRunAppend(now, reports[i], Flatten(reports[i + 1..]));
  }

  lemma RowsRecordedStep(
      after: seq<Row>, now: seq<Row>, next: seq<Row>, read: seq<Row>, analysis: nat, idOf: (nat, string) -> string,
      reports: seq<seq<Message>>, i: nat)
    requires i < |now| == |next| == |read| == |reports|
    requires forall j :: 0 <= j < |now| ==>
      next[j] == if j == i && read[i].analysis == analysis then WithOwnId(read[i], idOf) else RowRun(now[j], reports[i])
    requires RowsRecorded(after, next, read, analysis, idOf, reports, i + 1)
    ensures RowsRecorded(after, now, read, analysis, idOf, reports, i)
  {
    forall j | 0 <= j < |now|
      ensures after[j] == RowRecorded(now[j], read[j], j, analysis, idOf, reports, i)
    {
      RowRecordedStep(now[j], read[j], j, analysis, idOf, reports, i);
    }
  }

  lemma RecordedTurn(
      now: seq<Row>, read: seq<Row>, analysis: nat, idOf: (nat, string) -> string, reports: seq<seq<Message>>, i: nat)
    requires i < |now| == |read| == |reports|
    requires DistinctIds(idOf) && AllNameOwnIds(reports, idOf)
    requires SameKeys(read, now) && UniqueKeys(read) && OwnIds(now, idOf)
    requires var next := OneRecorded(now, read, analysis, idOf, reports, i);
      RowsRecorded(Recorded(next, read, analysis, IdsLeft(read, analysis, i + 1, idOf), reports, i + 1),
                   next, read, analysis, idOf, reports, i + 1)
    ensures RowsRecorded(Recorded(now, read, analysis, IdsLeft(read, analysis, i, idOf), reports, i),
                         now, read, analysis, idOf, reports, i)
  {
    var next := OneRecorded(now, read, analysis, idOf, reports, i);
    OneRecordedKeeps(now, read, analysis, idOf, reports, i);
    RecordedStep(now, read, analysis, idOf, reports, i);
    RowsRecordedStep(Recorded(next, read, analysis, IdsLeft(read, analysis, i + 1, idOf), reports, i + 1),
                     now, next, read, analysis, idOf, reports, i);
  }

  lemma {:induction false} RecordedInOrder(
      now: seq<Row>, read: seq<Row>, analysis: nat, idOf: (nat, string) -> string, reports: seq<seq<Message>>, i: nat)
    requires i <= |now| == |read| == |reports|
    requires DistinctIds(idOf) && AllNameOwnIds(reports, idOf)
    requires SameKeys(read, now) && UniqueKeys(read) && OwnIds(now, idOf)
    ensures RowsRecorded(Recorded(now, read, analysis, IdsLeft(read, analysis, i, idOf), reports, i),
                         now, read, analysis, idOf, reports, i)
    decreases |read| - i
  {
    if i < |read| {
      OneRecordedKeeps(now, read, analysis, idOf, reports, i);
      RecordedInOrder(OneRecorded(now, read, analysis, idOf, reports, i), read, analysis, idOf, reports, i + 1);
      RecordedTurn(now, read, analysis, idOf, reports, i);
    } else {
      NothingLeft(now, read, analysis, idOf, reports);
    }
  }

  lemma NothingLeft(
      now: seq<Row>, read: seq<Row>, analysis: nat, idOf: (nat, string) -> string, reports: seq<seq<Message>>)
    requires |now| == |read| == |reports|
    ensures RowsRecorded(now, now, read, analysis, idOf, reports, |reports|)
  {
    assert reports[|reports|..] == [];
  }

  /** Back to front, the id of the first slug comes last. */
  lemma LastIdFirst(slug: string, rest: seq<string>, own: string -> string)
    ensures Reversed(Ids([slug] + rest, own)) == Reversed(Ids(rest, own)) + [own(slug)]
  {
  }

  lemma {:induction false} SlugsFromOthers(rows: seq<Row>, analysis: nat, i: nat, m: nat)
    requires i <= m <= |rows| && forall j :: i <= j < m ==> rows[j].analysis != analysis
    ensures SlugsFrom(rows, analysis, i) == SlugsFrom(rows, analysis, m)
    decreases m - i
  {
    if i < m {
      SlugsFromStep(rows, analysis, i);
      SlugsFromOthers(rows, analysis, i + 1, m);
    }
  }

  lemma {:induction false} SlugsFromOwn(kept: seq<Row>, pk: nat, analysis: nat, slugs: seq<string>, i: nat)
    requires i <= |slugs|
    ensures SlugsFrom(kept + NewRows(pk, analysis, slugs), analysis, |kept| + i) == slugs[i..]
    decreases |slugs| - i
  {
    if i < |slugs| {
      SlugsFromOwn(kept, pk, analysis, slugs, i + 1);
      assert (kept + NewRows(pk, analysis, slugs))[|kept| + i] == NewRow(pk + i, analysis, slugs[i]);
    }
  }

  lemma SlugsFromReplaced(rows: seq<Row>, analysis: nat, slugs: seq<string>, pk: nat)
    ensures SlugsFrom(Replaced(rows, analysis, slugs, pk), analysis) == slugs
  {
    var kept := Without(rows, analysis);
    assert forall j :: 0 <= j < |kept| ==> kept[j] in kept;
    SlugsFromOthers(Replaced(rows, analysis, slugs, pk), analysis, 0, |kept|);
    SlugsFromOwn(kept, pk, analysis, slugs, 0);
  }

  lemma ReplacedKeys(rows: seq<Row>, analysis: nat, slugs: seq<string>, pk: nat)
    requires UniqueKeys(rows) && UniqueIds(rows) && NoDuplicates(slugs)
    ensures UniqueKeys(Replaced(rows, analysis, slugs, pk)) && UniqueIds(Replaced(rows, analysis, slugs, pk))
  {
    var kept := Without(rows, analysis);
    WithoutKeepsConstraints(rows, analysis);
    assert forall i :: 0 <= i < |kept| ==> kept[i] in kept;
  }

  lemma ReplacedOrder(rows: seq<Row>, analysis: nat, slugs: seq<string>, pk: nat)
    requires InIdOrder(rows, pk)
    ensures InIdOrder(Replaced(rows, analysis, slugs, pk), pk + |slugs|)
  {
    WithoutKeepsOrder(rows, analysis, pk);
    InIdOrderAppend(Without(rows, analysis), NewRows(pk, analysis, slugs), pk, pk + |slugs|);
  }

  lemma InIdOrderAppend(a: seq<Row>, b: seq<Row>, pk: nat, nextPk: nat)
    requires InIdOrder(a, pk) && InIdOrder(b, nextPk) && pk <= nextPk && forall i :: 0 <= i < |b| ==> pk <= b[i].pk
    ensures InIdOrder(a + b, nextPk)
  {
  }

  /** After a chain's rows are created, the table holds the other analyses' rows as they were and in their
      order, then one row for each slug, pending, with no id, no times and no retries. */
  lemma NewRowsAreBlank(rows: seq<Row>, analysis: nat, slugs: seq<string>, pk: nat, k: nat)
    requires k < |slugs|
    ensures var table := Replaced(rows, analysis, slugs, pk);
      && |table| == |Without(rows, analysis)| + |slugs|
      && var row := table[|table| - |slugs| + k];
         && row.analysis == analysis && row.slug == slugs[k] && row.pk == pk + k && row.status == Pending && row.taskId == ""
         && row.queueTime.None? && row.startTime.None? && row.endTime.None? && row.retryCount == 0
  {
  }

  /** Creating a chain's rows, dispatching it and recording the ids walked up from its last result
      gives every row the id of the task it was created with, whatever the workers report meanwhile
      and whatever ids the rows replaced had. A row of the chain ends as if the reports before its own
      save had never come; every other row sees all of them. */
  lemma RecordedIdsMatchTasks(
      rows: seq<Row>, analysis: nat, steps: seq<Step>, pk: nat, idOf: (nat, string) -> string, last: Result,
      reports: seq<seq<Message>>)
    requires steps != [] && NoDuplicates(StatusSlugs(steps))
    requires DistinctIds(idOf) && UniqueKeys(rows) && UniqueIds(rows) && OwnIds(Without(rows, analysis), idOf)
    requires ResultOf(Nodes(steps, IdsOf(analysis, idOf))) == Some(last)
    requires |reports| == |Replaced(rows, analysis, StatusSlugs(steps), pk)| && AllNameOwnIds(reports, idOf)
    ensures last.node.Single?
    ensures
      var table := Replaced(rows, analysis, StatusSlugs(steps), pk);
      var after := Recorded(table, table, analysis, [last.node.id] + AncestorIds(last.parent), reports);
      RowsRecorded(after, table, table, analysis, idOf, reports, 0)
      && forall j :: 0 <= j < |table| && table[j].analysis == analysis ==>
        SameKey(table[j], after[j]) && after[j].taskId == idOf(analysis, table[j].slug)
  {
    var slugs := StatusSlugs(steps);
    var table := Replaced(rows, analysis, slugs, pk);
    ReplacedKeys(rows, analysis, slugs, pk);
    ReplacedOwnIds(rows, analysis, slugs, pk, idOf);
    SlugsFromReplaced(rows, analysis, slugs, pk);
    ExtractedIdsMirrorStatuses(steps, IdsOf(analysis, idOf));
    RecordedInOrder(table, table, analysis, idOf, reports, 0);
    RecordedRowsHaveOwnIds(table, analysis, idOf, reports);
  }

  lemma ReplacedOwnIds(rows: seq<Row>, analysis: nat, slugs: seq<string>, pk: nat, idOf: (nat, string) -> string)
    requires OwnIds(Without(rows, analysis), idOf)
    ensures OwnIds(Replaced(rows, analysis, slugs, pk), idOf)
  {
  }

  lemma RecordedRowsHaveOwnIds(table: seq<Row>, analysis: nat, idOf: (nat, string) -> string, reports: seq<seq<Message>>)
    requires |reports| == |table| && AllNameOwnIds(reports, idOf)
    ensures forall j :: 0 <= j < |table| && table[j].analysis == analysis ==>
      SameKey(table[j], RowRecorded(table[j], table[j], j, analysis, idOf, reports, 0))
      && RowRecorded(table[j], table[j], j, analysis, idOf, reports, 0).taskId == idOf(analysis, table[j].slug)
  {
    forall j | 0 <= j < |table| && table[j].analysis == analysis { RecordedRowHasOwnId(table[j], j, analysis, idOf, reports); }
  }

  lemma RecordedRowHasOwnId(row: Row, j: nat, analysis: nat, idOf: (nat, string) -> string, reports: seq<seq<Message>>)
    requires j < |reports| && AllNameOwnIds(reports, idOf) && row.analysis == analysis
    ensures var after := RowRecorded(row, row, j, analysis, idOf, reports, 0);
      SameKey(row, after) && after.taskId == idOf(analysis, row.slug)
  {
    FlattenNamesOwnIds(reports[j + 1..], idOf);
    RowRunKeepsOwnId(WithOwnId(row, idOf), Flatten(reports[j + 1..]), idOf);
  }

  lemma {:induction false} FlattenNamesOwnIds(reports: seq<seq<Message>>, idOf: (nat, string) -> string)
    requires AllNameOwnIds(reports, idOf)
    ensures forall m :: m in Flatten(reports) ==> NamesOwnIds(m, idOf)
  {
    if reports != [] {
      FlattenNamesOwnIds(reports[1..], idOf);
    }
  }

  // ---- notices of an earlier run -------------------------------------------

  /** A start or finishing notice of the sub-task, from whichever run. */
  predicate IsNotice(m: Message, analysis: nat, slug: string) {
    (m.SubTaskStart? || FinishOf(m).Some?) && m.analysis == analysis && m.slug == slug
  }

  /** The notice brings an id that another row than row `at` has. */
  predicate BringsTakenId(m: Message, rows: seq<Row>, at: nat) {
    !m.SetSubTaskStatus? && (m.SubTaskStart? || FinishOf(m).Some?) && m.taskId != ""
    && exists i :: 0 <= i < |rows| && i != at && rows[i].taskId == m.taskId
  }

  lemma OneIdChanged(before: seq<Row>, after: seq<Row>, at: nat)
    requires at < |before| == |after| && UniqueIds(before)
    requires forall i :: 0 <= i < |before| && i != at ==> after[i].taskId == before[i].taskId
    ensures UniqueIds(after)
       <==> after[at].taskId == "" || forall i :: 0 <= i < |before| && i != at ==> before[i].taskId != after[at].taskId
  {
  }

  lemma NoticeTouchesOneRow(rows: seq<Row>, at: nat, m: Message)
    requires UniqueKeys(rows) && at < |rows| && IsNotice(m, rows[at].analysis, rows[at].slug)
    ensures forall i :: 0 <= i < |rows| && i != at ==> AllAfter(rows, m)[i] == rows[i]
    ensures AllAfter(rows, m)[at] == RowAfter(rows[at], m)
  {
  }

  /** A notice, whoever sent it, changes the row of its slug, unless it brings an id that another row
      has. */
  lemma NoticeIsTaken(rows: seq<Row>, at: nat, m: Message)
    requires UniqueKeys(rows) && UniqueIds(rows) && at < |rows| && IsNotice(m, rows[at].analysis, rows[at].slug)
    ensures Apply(rows, m)[at] == if BringsTakenId(m, rows, at) then rows[at] else RowAfter(rows[at], m)
  {
    NoticeTouchesOneRow(rows, at, m);
    OneIdChanged(rows, AllAfter(rows, m), at);
  }

  /** Once finished, a row stays finished. */
  lemma FinishedStays(rows: seq<Row>, messages: seq<Message>, at: nat)
    requires ValidRows(rows) && at < |rows| && rows[at].status.Finished()
    requires forall n :: n in messages ==> FinishingNotice(n)
    ensures Run(rows, messages)[at].status.Finished()
  {
    RunForward(rows, messages);
    assert Forward(rows[at], Run(rows, messages)[at]);
  }

  lemma ReplacedValid(rows: seq<Row>, analysis: nat, slugs: seq<string>, pk: nat)
    requires ValidRows(rows)
    ensures ValidRows(Replaced(rows, analysis, slugs, pk))
  {
    assert forall i :: 0 <= i < |Without(rows, analysis)| ==> Without(rows, analysis)[i] in rows;
  }

  lemma {:induction false} RunKeepsConstraints(rows: seq<Row>, messages: seq<Message>)
    requires UniqueIds(rows) && UniqueKeys(rows)
    ensures UniqueIds(Run(rows, messages)) && UniqueKeys(Run(rows, messages)) && SameKeys(rows, Run(rows, messages))
  {
    if messages != [] {
      RunKeepsConstraints(rows, messages[..|messages| - 1]);
      ApplyKeepsConstraints(Run(rows, messages[..|messages| - 1]), messages[|messages| - 1]);
    }
  }

  /** The notice is taken for one of the row's own, unless another row has its id; if it says finished, so
      is the row after whatever comes later. */
  ghost predicate TakenForGood(table: seq<Row>, at: nat, m: Message, later: seq<Message>)
    requires at < |table|
  {
    if BringsTakenId(m, table, at) then Apply(table, m)[at] == table[at]
    else
      Apply(table, m)[at] == RowAfter(table[at], m)
      && (FinishOf(m).Some? ==> Run(Apply(table, m), later)[at].status.Finished())
  }

  /** A notice that comes once its row was replaced, and whatever else was delivered, is taken for one of
      the new task, though an earlier run sent it, unless another row has its id. If it says finished,
      the new row is finished whatever its own task reports later, so a cancel never revokes that task. */
  lemma LateNoticeIsTakenForNewTask(
      rows: seq<Row>, analysis: nat, slugs: seq<string>, pk: nat, k: nat, created: seq<Row>, at: nat,
      before: seq<Message>, m: Message, later: seq<Message>)
    requires UniqueKeys(rows) && UniqueIds(rows) && ValidRows(rows) && NoDuplicates(slugs) && k < |slugs|
    requires IsNotice(m, analysis, slugs[k]) && FinishingNotice(m)
    requires (forall n :: n in before ==> FinishingNotice(n)) && forall n :: n in later ==> FinishingNotice(n)
    requires created == Replaced(rows, analysis, slugs, pk) && at == |Without(rows, analysis)| + k
    ensures TakenForGood(Run(created, before), at, m, later)
  {
    NewTable(rows, analysis, slugs, pk, k);
    NoticeAfterRun(created, before, at, m, later);
  }

  lemma NewTable(rows: seq<Row>, analysis: nat, slugs: seq<string>, pk: nat, k: nat)
    requires UniqueKeys(rows) && UniqueIds(rows) && ValidRows(rows) && NoDuplicates(slugs) && k < |slugs|
    ensures var created := Replaced(rows, analysis, slugs, pk);
      && UniqueKeys(created) && UniqueIds(created) && ValidRows(created)
      && created[|Without(rows, analysis)| + k] == NewRow(pk + k, analysis, slugs[k])
  {
    ReplacedKeys(rows, analysis, slugs, pk);
    ReplacedValid(rows, analysis, slugs, pk);
  }

  lemma NoticeAfterRun(rows: seq<Row>, before: seq<Message>, at: nat, m: Message, later: seq<Message>)
    requires UniqueKeys(rows) && UniqueIds(rows) && ValidRows(rows)
    requires at < |rows| && IsNotice(m, rows[at].analysis, rows[at].slug) && FinishingNotice(m)
    requires (forall n :: n in before ==> FinishingNotice(n)) && forall n :: n in later ==> FinishingNotice(n)
    ensures TakenForGood(Run(rows, before), at, m, later)
  {
    var table := Run(rows, before);
    RunKeepsConstraints(rows, before);
    RunForward(rows, before);
    assert SameKey(rows[at], table[at]);
    NoticeForGood(table, at, m, later);
  }

  lemma NoticeForGood(table: seq<Row>, at: nat, m: Message, later: seq<Message>)
    requires UniqueKeys(table) && UniqueIds(table) && ValidRows(table)
    requires at < |table| && IsNotice(m, table[at].analysis, table[at].slug) && FinishingNotice(m)
    requires forall n :: n in later ==> FinishingNotice(n)
    ensures TakenForGood(table, at, m, later)
  {
    NoticeIsTaken(table, at, m);
    ApplyForward(table, m);
    if FinishOf(m).Some? && !BringsTakenId(m, table, at) {
      FinishedStays(Apply(table, m), later, at);
    }
  }

  // ---- what every message keeps in the database ----------------------------

  lemma {:induction false} AssignAllKeepsKeys(rows: seq<Row>, updates: seq<TaskUpdate>, now: nat)
    requires UniqueIds(rows)
    ensures AssignAll(rows, updates, now).Some? ==>
      SameKeys(rows, AssignAll(rows, updates, now).value) && UniqueIds(AssignAll(rows, updates, now).value)
  {
    if updates != [] {
      AssignAllKeepsKeys(rows, updates[..|updates| - 1], now);
    }
  }

  lemma ApplyKeepsConstraints(rows: seq<Row>, m: Message)
    requires UniqueIds(rows) && UniqueKeys(rows)
    ensures UniqueIds(Apply(rows, m)) && UniqueKeys(Apply(rows, m)) && SameKeys(rows, Apply(rows, m))
  {
    if m.UpdateTaskIds? {
      if m.updates != [] {
        var queued := QueueAll(rows, m.updates[0].analysis);
        AssignAllKeepsKeys(queued, m.updates, m.now);
        assert SameKeys(rows, queued) && UniqueIds(queued);
      }
    } else {
      assert SameKeys(rows, AllAfter(rows, m));
    }
    assert SameKeys(rows, Apply(rows, m));
  }

  function RevokedIds(rows: seq<Row>, analysis: nat): seq<string> {
    if rows == [] then []
    else
      var last := rows[|rows| - 1];
      RevokedIds(rows[..|rows| - 1], analysis)
      + if last.analysis == analysis && !last.status.Finished() && last.taskId != "" then [last.taskId] else []
  }

  /** An unfinished row of the analysis has the id. */
  ghost predicate ToRevoke(rows: seq<Row>, analysis: nat, id: string) {
    id != "" && exists i :: 0 <= i < |rows| && rows[i].taskId == id && rows[i].analysis == analysis
                            && rows[i].status in {Pending, Queued, Started}
  }

  /** Exactly the ids of the analysis' unfinished rows are revoked, each once. */
  lemma {:induction false} RevokedAreUnfinished(rows: seq<Row>, analysis: nat)
    requires UniqueIds(rows)
    ensures forall id :: id in RevokedIds(rows, analysis) <==> ToRevoke(rows, analysis, id)
    ensures NoDuplicates(RevokedIds(rows, analysis))
  {
    if rows != [] {
      var init, last := rows[..|rows| - 1], rows[|rows| - 1];
      RevokedAreUnfinished(init, analysis);
      NoDuplicatesSnoc(RevokedIds(init, analysis), last.taskId);
      RevokedSnoc(init, last, analysis);
      assert rows == init + [last];
    }
  }

  lemma RevokedSnoc(init: seq<Row>, last: Row, analysis: nat)
    ensures forall id :: ToRevoke(init + [last], analysis, id) <==>
      ToRevoke(init, analysis, id) || (id != "" && last.taskId == id && last.analysis == analysis
                                       && last.status in {Pending, Queued, Started})
    ensures RevokedIds(init + [last], analysis)
         == RevokedIds(init, analysis)
            + if last.analysis == analysis && !last.status.Finished() && last.taskId != "" then [last.taskId] else []
  {
    var rows := init + [last];
    assert rows[..|init|] == init;
    forall id
      ensures ToRevoke(rows, analysis, id) <==>
        ToRevoke(init, analysis, id) || (id != "" && last.taskId == id && last.analysis == analysis
                                         && last.status in {Pending, Queued, Started})
    {
      assert rows[|init|] == last;
      if ToRevoke(init, analysis, id) {
        var i :| 0 <= i < |init| && init[i].taskId == id && init[i].analysis == analysis
                 && init[i].status in {Pending, Queued, Started};
        assert rows[i] == init[i];
      }
    }
  }

  /** The slug constraint, as the database checks it row by row. */
  method AllDistinct(slugs: seq<string>) returns (distinct: bool)
    ensures distinct <==> NoDuplicates(slugs)
  {
    distinct := true;
    for i := 0 to |slugs|
      invariant distinct <==> NoDuplicates(slugs[..i])
    {
      NoDuplicatesSnoc(slugs[..i], slugs[i]);
      assert slugs[..i + 1] == slugs[..i] + [slugs[i]];
      distinct := distinct && slugs[i] !in slugs[..i];
    }
    assert slugs[..|slugs|] == slugs;
  }

  /** The table. Apart from the id recorder, every method is one atomic task. */
  class StatusTable {
    var rows: seq<Row>
    var nextPk: nat

    ghost predicate Valid()
      reads this
    {
      UniqueIds(rows) && UniqueKeys(rows) && InIdOrder(rows, nextPk)
    }

    constructor ()
      ensures Valid() && rows == []
    {
      rows, nextPk := [], 0;
    }

    /** `_replace_subtask_statuses`: the old rows go even when a repeated slug stops the new ones. */
    method ReplaceSubtaskStatuses(analysis: nat, slugs: seq<string>) returns (created: bool)
      requires Valid()
      modifies this
      ensures Valid()
      ensures created <==> NoDuplicates(slugs)
      ensures rows == if created then Replaced(old(rows), analysis, slugs, old(nextPk)) else Without(old(rows), analysis)
    {
      WithoutKeepsConstraints(rows, analysis);
      WithoutKeepsOrder(rows, analysis, nextPk);
      rows := Without(rows, analysis);
      created := AllDistinct(slugs);
      if created {
        ReplacedKeys(old(rows), analysis, slugs, nextPk);
        ReplacedOrder(old(rows), analysis, slugs, nextPk);
        rows := rows + NewRows(nextPk, analysis, slugs);
        nextPk := nextPk + |slugs|;
      }
    }

    /** `_record_subtask_ids`; the messages `reports[i]` arrive before it gets to row `i`. */
    method RecordSubtaskIds(analysis: nat, ids: seq<string>, reports: seq<seq<Message>>)
      requires Valid() && |reports| == |rows|
      modifies this`rows
      ensures Valid()
      ensures rows == Recorded(old(rows), old(rows), analysis, ids, reports)
    {
      var read := rows;
      var left := ids;
      var i := 0;
      while i < |read|
        invariant i <= |read| && Valid() && SameKeys(read, rows)
        invariant Recorded(rows, read, analysis, left, reports, i) == Recorded(old(rows), old(rows), analysis, ids, reports)
        decreases |read| - i
      {
        DeliverAll(reports[i]);
        if read[i].analysis == analysis {
          if left == [] {
            return;
          }
          var saved := SaveRow(i, read[i], left[|left| - 1]);
          if !saved {
            return;
          }
          left := left[..|left| - 1];
        }
        i := i + 1;
      }
    }

    /** `sub_t.save()` of a row object read earlier. */
    method SaveRow(i: nat, snapshot: Row, id: string) returns (saved: bool)
      requires Valid() && i < |rows| && SameKey(snapshot, rows[i])
      modifies this`rows
      ensures Valid() && SameKeys(old(rows), rows)
      ensures saved <==> UniqueIds(SaveSnapshot(old(rows), i, snapshot, id))
      ensures rows == if saved then SaveSnapshot(old(rows), i, snapshot, id) else old(rows)
    {
      var changed := rows[i := snapshot.(taskId := id)];
      saved := UniqueIds(changed);
      if saved {
        rows := changed;
      }
    }

    method DeliverAll(messages: seq<Message>)
      requires Valid()
      modifies this`rows
      ensures Valid() && SameKeys(old(rows), rows)
      ensures rows == Run(old(rows), messages)
    {
      for n := 0 to |messages|
        invariant Valid() && SameKeys(old(rows), rows)
        invariant rows == Run(old(rows), messages[..n])
      {
        assert messages[..n + 1][..n] == messages[..n];
        Deliver(messages[n]);
      }
      assert messages[..|messages|] == messages;
    }

    method Deliver(m: Message)
      requires Valid()
      modifies this`rows
      ensures Valid() && SameKeys(old(rows), rows)
      ensures rows == Apply(old(rows), m)
    {
      ApplyKeepsConstraints(rows, m);
      if m.UpdateTaskIds? {
        var raised := UpdateTaskId(m.updates, m.now);
      } else {
        var raised := Update(m);
      }
    }

    /** `update_task_id`: queues the pending rows, then sets the ids in one transaction. An empty
        list raises before anything is written. */
    method UpdateTaskId(updates: seq<TaskUpdate>, now: nat) returns (raised: bool)
      requires Valid()
      modifies this`rows
      ensures Valid()
      ensures rows == Apply(old(rows), UpdateTaskIds(updates, now))
      ensures raised <==> updates == [] || AssignAll(QueueAll(old(rows), updates[0].analysis), updates, now).None?
    {
      ApplyKeepsConstraints(rows, UpdateTaskIds(updates, now));
      if updates == [] {
        return true;
      }
      rows := QueueAll(rows, updates[0].analysis);
      var pending := rows;
      for i := 0 to |updates|
        invariant rows == QueueAll(old(rows), updates[0].analysis)
        invariant AssignAll(rows, updates[..i], now) == Some(pending)
      {
        assert updates[..i + 1][..i] == updates[..i];
        pending := AssignOne(pending, updates[i], now);
        if !UniqueIds(pending) {
          AssignAllStops(rows, updates, i + 1, now);
          return true;
        }
      }
      assert updates[..|updates|] == updates;
      rows := pending;
      raised := false;
    }

    /** One `QuerySet.update`; refused as a whole when it would break the id constraint. */
    method Update(m: Message) returns (raised: bool)
      requires Valid() && !m.UpdateTaskIds?
      modifies this`rows
      ensures Valid()
      ensures rows == Apply(old(rows), m)
      ensures raised <==> !UniqueIds(AllAfter(old(rows), m))
    {
      ApplyKeepsConstraints(rows, m);
      var after := AllAfter(rows, m);
      raised := !UniqueIds(after);
      if !raised {
        rows := after;
      }
    }

    /** `cancel_subtasks`: revokes the ids of the unfinished sub-tasks, then cancels those still
        unfinished. */
    method CancelSubtasks(analysis: nat, now: nat) returns (revoked: seq<string>)
      requires Valid()
      modifies this`rows
      ensures Valid()
      ensures revoked == RevokedIds(old(rows), analysis)
      ensures rows == Apply(old(rows), CancelSubTasks(analysis, now))
      ensures Unfinished(rows, analysis) == 0
    {
      revoked := IdsToRevoke(analysis);
      var raised := Update(Message.CancelSubTasks(analysis, now));
      NoneUnfinished(rows, analysis);
    }

    method IdsToRevoke(analysis: nat) returns (revoked: seq<string>)
      ensures revoked == RevokedIds(rows, analysis)
    {
      revoked := [];
      for i := 0 to |rows|
        invariant revoked == RevokedIds(rows[..i], analysis)
      {
        assert rows[..i + 1][..i] == rows[..i];
        if rows[i].analysis == analysis && !rows[i].status.Finished() && rows[i].taskId != "" {
          revoked := revoked + [rows[i].taskId];
        }
      }
      assert rows[..|rows|] == rows;
    }
  }

  lemma {:induction false} AssignAllStops(rows: seq<Row>, updates: seq<TaskUpdate>, i: nat, now: nat)
    requires i <= |updates| && AssignAll(rows, updates[..i], now).None?
    ensures AssignAll(rows, updates, now).None?
    decreases |updates| - i
  {
    if i == |updates| {
      assert updates[..i] == updates;
    } else {
      assert updates[..i + 1][..i] == updates[..i];
      AssignAllStops(rows, updates, i + 1, now);
    }
  }
}
