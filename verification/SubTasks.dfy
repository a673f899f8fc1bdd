/** The sub-task status rows and the messages that update them: the recording tasks of
    src/server/oasisapi/analyses/v2_api/tasks.py on `AnalysisTaskStatus`
    (src/server/oasisapi/analyses/models.py). One message is one atomic step on the table. */
module SubTasks {
  import opened Options
  import opened RequestWalk

  datatype Status = Pending | Queued | Started | Completed | Cancelled | Error {
    predicate Finished() { Completed? || Cancelled? || Error? }

    function Rank(): nat {
      match this
      case Pending => 0
      case Queued => 1
      case Started => 2
      case _ => 3
    }
  }

  datatype Row = Row(
    pk: nat,
    analysis: nat,
    slug: string,
    status: Status,
    taskId: string,
    queueTime: Option<nat>,
    startTime: Option<nat>,
    endTime: Option<nat>,
    retryCount: nat)

  function NewRow(pk: nat, analysis: nat, slug: string): Row {
    Row(pk, analysis, slug, Pending, "", None, None, None, 0)
  }

  datatype Message =
    | UpdateTaskIds(updates: seq<TaskUpdate>, now: nat)
    | SubTaskStart(analysis: nat, slug: string, taskId: string, dt: Option<nat>, now: nat)
    | SubTaskSuccess(analysis: nat, slug: string, taskId: string, now: nat)
    | SubTaskFailure(analysis: nat, slug: string, taskId: string, now: nat)
    | SetSubTaskStatus(analysis: nat, slug: string, status: Status, now: nat)
    | CancelSubTasks(analysis: nat, now: nat)
    | ChordError(analysis: nat, now: nat)
    | RetryLog(analysis: nat, slug: string)

  /** The start time a start notice carries: its timestamp, or the time it is handled when it has
      none (a zero timestamp counts as none). */
  function NoticeTime(dt: Option<nat>, now: nat): nat {
    if dt.GetOr(0) == 0 then now else dt.value
  }

  // ---- effect on one row ---------------------------------------------------

  function QueueRow(row: Row, analysis: nat): Row {
    if row.analysis == analysis && row.status == Pending then row.(status := Queued) else row
  }

  function AssignRow(row: Row, update: TaskUpdate, now: nat): Row {
    if row.analysis == update.analysis && row.slug == update.slug
    then row.(taskId := update.taskId, queueTime := Some(now)) else row
  }

  /** The effect on one row of every message but `UpdateTaskIds`, which comes in two parts. */
  function RowAfter(row: Row, m: Message): Row {
    match m
    case UpdateTaskIds(_, _) => row
    case SubTaskStart(a, s, id, dt, now) =>
      if row.analysis != a || row.slug != s then row
      else row.(taskId := id,
                startTime := if row.startTime.None? then Some(NoticeTime(dt, now)) else row.startTime,
                status := if row.status == Queued then Started else row.status)
    case SubTaskSuccess(a, s, id, now) =>
      if row.analysis != a || row.slug != s then row
      else row.(taskId := id, status := Completed, endTime := Some(now))
    case SubTaskFailure(a, s, id, now) =>
      if row.analysis != a || row.slug != s then row
      else row.(taskId := id, status := Error, endTime := Some(now))
    case SetSubTaskStatus(a, s, status, now) =>
      if row.analysis != a || row.slug != s then row
      else row.(status := status, endTime := Some(now))
    case CancelSubTasks(a, now) =>
      if row.analysis != a || row.status.Finished() then row
      else row.(status := Cancelled, endTime := Some(now))
    case ChordError(a, now) =>
      if row.analysis != a || !(row.status.Queued? || row.status.Started?) then row
      else row.(status := Cancelled, endTime := Some(now))
    case RetryLog(a, s) =>
      if row.analysis != a || row.slug != s then row
      else row.(retryCount := row.retryCount + 1)
  }

  // ---- effect on the table -------------------------------------------------

  /** The database constraint on celery ids: a non-empty id belongs to one row only. */
  predicate UniqueIds(rows: seq<Row>) {
    forall i, j :: 0 <= i < j < |rows| ==> rows[i].taskId == "" || rows[i].taskId != rows[j].taskId
  }

  /** `unique_together` of analysis and slug. */
  predicate UniqueKeys(rows: seq<Row>) {
    forall i, j :: 0 <= i < j < |rows| ==> rows[i].analysis != rows[j].analysis || rows[i].slug != rows[j].slug
  }

  function QueueAll(rows: seq<Row>, analysis: nat): (rows': seq<Row>)
    ensures |rows'| == |rows|
  {
    seq(|rows|, i requires 0 <= i < |rows| => QueueRow(rows[i], analysis))
  }

  function AssignOne(rows: seq<Row>, update: TaskUpdate, now: nat): (rows': seq<Row>)
    ensures |rows'| == |rows|
  {
    seq(|rows|, i requires 0 <= i < |rows| => AssignRow(rows[i], update, now))
  }

  /** The id updates of one message, in order; `None` when one breaks the id constraint, which rolls
      all of them back. */
  function AssignAll(rows: seq<Row>, updates: seq<TaskUpdate>, now: nat): (r: Option<seq<Row>>)
    ensures r.Some? ==> |r.value| == |rows|
  {
    if updates == [] then Some(rows)
    else
      var before := AssignAll(rows, updates[..|updates| - 1], now);
      if before.None? then None
      else
        var rows' := AssignOne(before.value, updates[|updates| - 1], now);
        if UniqueIds(rows') then Some(rows') else None
  }

  function AllAfter(rows: seq<Row>, m: Message): (rows': seq<Row>)
    ensures |rows'| == |rows|
  {
    seq(|rows|, i requires 0 <= i < |rows| => RowAfter(rows[i], m))
  }

  /** The table after one message. An update that would share an id between rows is refused. */
  function Apply(rows: seq<Row>, m: Message): (rows': seq<Row>)
    ensures |rows'| == |rows|
  {
    if m.UpdateTaskIds? then
      if m.updates == [] then rows
      else
        var queued := QueueAll(rows, m.updates[0].analysis);
        AssignAll(queued, m.updates, m.now).GetOr(queued)
    else if UniqueIds(AllAfter(rows, m)) then AllAfter(rows, m)
    else rows
  }

  function Run(rows: seq<Row>, messages: seq<Message>): (rows': seq<Row>)
    ensures |rows'| == |rows|
  {
    if messages == [] then rows
    else Apply(Run(rows, messages[..|messages| - 1]), messages[|messages| - 1])
  }

  // ---- what every message keeps --------------------------------------------

  /** A row is finished iff its end time is set, and a started row has its start time. */
  predicate ValidRow(row: Row) {
    && (row.status.Finished() <==> row.endTime.Some?)
    && (row.status.Started? ==> row.startTime.Some?)
  }

  predicate ValidRows(rows: seq<Row>) {
    forall i :: 0 <= i < |rows| ==> ValidRow(rows[i])
  }

  /** The row made no step backwards: its rank did not drop and a set start time is kept. */
  predicate Forward(before: Row, after: Row) {
    && after.pk == before.pk && after.analysis == before.analysis && after.slug == before.slug
    && before.status.Rank() <= after.status.Rank()
    && (before.startTime.Some? ==> after.startTime == before.startTime)
  }

  predicate AllForward(before: seq<Row>, after: seq<Row>) {
    |after| == |before| && forall i :: 0 <= i < |before| ==> Forward(before[i], after[i])
  }

  /** The worker reports only failed sub-tasks through `set_subtask_status`, though the task would
      write any status it is given. */
  predicate FinishingNotice(m: Message) {
    m.SetSubTaskStatus? ==> m.status.Finished()
  }

  lemma {:induction false} AssignAllForward(rows: seq<Row>, updates: seq<TaskUpdate>, now: nat)
    requires ValidRows(rows)
    ensures AssignAll(rows, updates, now).Some? ==>
      ValidRows(AssignAll(rows, updates, now).value) && AllForward(rows, AssignAll(rows, updates, now).value)
  {
    if updates != [] {
      AssignAllForward(rows, updates[..|updates| - 1], now);
    }
  }

  lemma ApplyForward(rows: seq<Row>, m: Message)
    requires ValidRows(rows) && FinishingNotice(m)
    ensures ValidRows(Apply(rows, m)) && AllForward(rows, Apply(rows, m))
  {
    if m.UpdateTaskIds? {
      if m.updates != [] {
        AssignAllForward(QueueAll(rows, m.updates[0].analysis), m.updates, m.now);
      }
    } else {
      assert forall i :: 0 <= i < |rows| ==> ValidRow(RowAfter(rows[i], m)) && Forward(rows[i], RowAfter(rows[i], m));
    }
  }

  /** Over every run, ranks never drop, start times are written once, and rows stay valid. */
  lemma {:induction false} RunForward(rows: seq<Row>, messages: seq<Message>)
    requires ValidRows(rows) && forall m :: m in messages ==> FinishingNotice(m)
    ensures ValidRows(Run(rows, messages)) && AllForward(rows, Run(rows, messages))
  {
    if messages != [] {
      var init := messages[..|messages| - 1];
      RunForward(rows, init);
      ApplyForward(Run(rows, init), messages[|messages| - 1]);
    }
  }

  /** `set_subtask_status` keeps a valid row valid exactly when it is given a finished status. */
  lemma SetStatusKeepsRowValid(row: Row, status: Status, now: nat)
    requires ValidRow(row)
    ensures ValidRow(RowAfter(row, SetSubTaskStatus(row.analysis, row.slug, status, now))) <==> status.Finished()
  {
  }

  function Unfinished(rows: seq<Row>, analysis: nat): nat {
    if rows == [] then 0
    else
      var last := rows[|rows| - 1];
      Unfinished(rows[..|rows| - 1], analysis) + if last.analysis == analysis && !last.status.Finished() then 1 else 0
  }

  lemma {:induction false} ForwardUnfinished(before: seq<Row>, after: seq<Row>, analysis: nat)
    requires AllForward(before, after)
    ensures Unfinished(after, analysis) <= Unfinished(before, analysis)
  {
    if before != [] {
      ForwardUnfinished(before[..|before| - 1], after[..|after| - 1], analysis);
      assert Forward(before[|before| - 1], after[|after| - 1]);
    }
  }

  lemma {:induction false} NoneUnfinished(rows: seq<Row>, analysis: nat)
    ensures Unfinished(rows, analysis) == 0
       <==> forall i :: 0 <= i < |rows| && rows[i].analysis == analysis ==> rows[i].status.Finished()
  {
    if rows != [] {
      NoneUnfinished(rows[..|rows| - 1], analysis);
    }
  }

  /** The number of unfinished rows never grows; cancelling brings it to zero, where it stays. */
  lemma UnfinishedNeverGrows(rows: seq<Row>, messages: seq<Message>, analysis: nat, now: nat)
    requires ValidRows(rows) && UniqueIds(rows) && forall m :: m in messages ==> FinishingNotice(m)
    ensures Unfinished(Run(rows, messages), analysis) <= Unfinished(rows, analysis)
    ensures Unfinished(Apply(rows, CancelSubTasks(analysis, now)), analysis) == 0
    ensures Unfinished(Run(Apply(rows, CancelSubTasks(analysis, now)), messages), analysis) == 0
  {
    RunUnfinished(rows, messages, analysis);
    CancelFinishesAll(rows, analysis, now);
    RunUnfinished(Apply(rows, CancelSubTasks(analysis, now)), messages, analysis);
  }

  lemma RunUnfinished(rows: seq<Row>, messages: seq<Message>, analysis: nat)
    requires ValidRows(rows) && forall m :: m in messages ==> FinishingNotice(m)
    ensures Unfinished(Run(rows, messages), analysis) <= Unfinished(rows, analysis)
  {
    RunForward(rows, messages);
    ForwardUnfinished(rows, Run(rows, messages), analysis);
  }

  lemma CancelFinishesAll(rows: seq<Row>, analysis: nat, now: nat)
    requires ValidRows(rows) && UniqueIds(rows)
    ensures ValidRows(Apply(rows, CancelSubTasks(analysis, now)))
    ensures Unfinished(Apply(rows, CancelSubTasks(analysis, now)), analysis) == 0
  {
    ApplyForward(rows, CancelSubTasks(analysis, now));
    NoneUnfinished(Apply(rows, CancelSubTasks(analysis, now)), analysis);
  }

  // ---- celery ids ----------------------------------------------------------

  /** Celery gives every sub-task an id of its own. */
  ghost predicate DistinctIds(idOf: (nat, string) -> string) {
    && (forall a, s :: idOf(a, s) != "")
    && (forall a, s, b, t :: idOf(a, s) == idOf(b, t) ==> a == b && s == t)
  }

  predicate OwnIds(rows: seq<Row>, idOf: (nat, string) -> string) {
    forall i :: 0 <= i < |rows| ==> rows[i].taskId == "" || rows[i].taskId == idOf(rows[i].analysis, rows[i].slug)
  }

  /** The message names sub-tasks by their own ids. */
  predicate NamesOwnIds(m: Message, idOf: (nat, string) -> string) {
    match m
    case UpdateTaskIds(updates, _) => forall u :: u in updates ==> u.taskId == idOf(u.analysis, u.slug)
    case SubTaskStart(a, s, id, _, _) => id == idOf(a, s)
    case SubTaskSuccess(a, s, id, _) => id == idOf(a, s)
    case SubTaskFailure(a, s, id, _) => id == idOf(a, s)
    case _ => true
  }

  lemma OwnIdsAreUnique(rows: seq<Row>, idOf: (nat, string) -> string)
    requires DistinctIds(idOf) && UniqueKeys(rows) && OwnIds(rows, idOf)
    ensures UniqueIds(rows)
  {
  }

  predicate SameKey(before: Row, after: Row) {
    after.pk == before.pk && after.analysis == before.analysis && after.slug == before.slug
  }

  predicate SameKeys(before: seq<Row>, after: seq<Row>) {
    |after| == |before| && forall i :: 0 <= i < |before| ==> SameKey(before[i], after[i])
  }

  function RowAssigned(row: Row, updates: seq<TaskUpdate>, now: nat): Row {
    if updates == [] then row
    else AssignRow(RowAssigned(row, updates[..|updates| - 1], now), updates[|updates| - 1], now)
  }

  /** The effect of any message on one row, the id constraint aside. */
  function FullRowAfter(row: Row, m: Message): Row {
    if !m.UpdateTaskIds? then RowAfter(row, m)
    else if m.updates == [] then row
    else RowAssigned(QueueRow(row, m.updates[0].analysis), m.updates, m.now)
  }

  lemma {:induction false} AssignAllRowWise(rows: seq<Row>, updates: seq<TaskUpdate>, now: nat, idOf: (nat, string) -> string)
    requires DistinctIds(idOf) && UniqueKeys(rows) && OwnIds(rows, idOf)
    requires forall u :: u in updates ==> u.taskId == idOf(u.analysis, u.slug)
    ensures AssignAll(rows, updates, now).Some?
    ensures SameKeys(rows, AssignAll(rows, updates, now).value) && OwnIds(AssignAll(rows, updates, now).value, idOf)
    ensures forall i :: 0 <= i < |rows| ==> AssignAll(rows, updates, now).value[i] == RowAssigned(rows[i], updates, now)
  {
    if updates != [] {
      var init, last := updates[..|updates| - 1], updates[|updates| - 1];
      AssignAllRowWise(rows, init, now, idOf);
      assert last in updates;
      OwnIdsAreUnique(AssignOne(AssignAll(rows, init, now).value, last, now), idOf);
    }
  }

  /** When messages name sub-tasks by their own ids the id constraint never bites, and each row
      evolves on its own. */
  lemma ApplyRowWise(rows: seq<Row>, m: Message, idOf: (nat, string) -> string)
    requires DistinctIds(idOf) && UniqueKeys(rows) && OwnIds(rows, idOf) && NamesOwnIds(m, idOf)
    ensures UniqueKeys(Apply(rows, m)) && OwnIds(Apply(rows, m), idOf)
    ensures forall i :: 0 <= i < |rows| ==> Apply(rows, m)[i] == FullRowAfter(rows[i], m)
  {
    if m.UpdateTaskIds? {
      if m.updates != [] {
        AssignAllRowWise(QueueAll(rows, m.updates[0].analysis), m.updates, m.now, idOf);
      }
    } else {
      var after := AllAfter(rows, m);
      assert SameKeys(rows, after);
      assert OwnIds(after, idOf);
      OwnIdsAreUnique(after, idOf);
    }
  }

  // ---- delivery order ------------------------------------------------------

  /** The message is about the row's own sub-task. */
  predicate IsAbout(m: Message, row: Row) {
    !m.UpdateTaskIds? && !m.CancelSubTasks? && !m.ChordError? && m.analysis == row.analysis && m.slug == row.slug
  }

  function FinishOf(m: Message): Option<Status> {
    match m
    case SubTaskSuccess(_, _, _, _) => Some(Completed)
    case SubTaskFailure(_, _, _, _) => Some(Error)
    case SetSubTaskStatus(_, _, status, _) => Some(status)
    case _ => None
  }

  /** As far as the row goes, the message is an id update, the start notice carrying `start`, or a
      notice of finishing as `finish`; anything may be said of other sub-tasks and analyses. */
  predicate Delivers(m: Message, row: Row, start: nat, finish: Status) {
    if m.CancelSubTasks? || m.ChordError? then m.analysis != row.analysis
    else IsAbout(m, row) ==>
      (m.SubTaskStart? ==> start == if m.dt.Some? && m.dt.value > 0 then m.dt.value else m.now)
      && (FinishOf(m).Some? ==> FinishOf(m).value == finish)
  }

  lemma {:induction false} RowAssignedKeeps(row: Row, updates: seq<TaskUpdate>, now: nat)
    ensures var row' := RowAssigned(row, updates, now);
      SameKey(row, row') && row'.status == row.status && row'.startTime == row.startTime && row'.endTime == row.endTime
  {
    if updates != [] {
      RowAssignedKeeps(row, updates[..|updates| - 1], now);
    }
  }

  ghost predicate StartNoticed(messages: seq<Message>, row: Row) {
    exists m :: m in messages && m.SubTaskStart? && IsAbout(m, row)
  }

  ghost predicate FinishNoticed(messages: seq<Message>, row: Row) {
    exists m :: m in messages && FinishOf(m).Some? && IsAbout(m, row)
  }

  // ---- one row over a run --------------------------------------------------

  function RowRun(row: Row, messages: seq<Message>): Row {
    if messages == [] then row
    else FullRowAfter(RowRun(row, messages[..|messages| - 1]), messages[|messages| - 1])
  }

  lemma {:induction false} RowRunAppend(row: Row, a: seq<Message>, b: seq<Message>)
    ensures RowRun(row, a + b) == RowRun(RowRun(row, a), b)
  {
    if b == [] {
      assert a + b == a;
    } else {
      var init, last := b[..|b| - 1], b[|b| - 1];
      RowRunAppend(row, a, init);
      assert (a + b)[..|a + b| - 1] == a + init;
    }
  }

  lemma FullRowAfterKeeps(row: Row, m: Message)
    ensures SameKey(row, FullRowAfter(row, m))
    ensures !m.UpdateTaskIds? ==> FullRowAfter(row, m).queueTime == row.queueTime
    ensures m.UpdateTaskIds? && m.updates != [] ==>
      var queued := QueueRow(row, m.updates[0].analysis);
      FullRowAfter(row, m).status == queued.status && FullRowAfter(row, m).startTime == row.startTime
      && FullRowAfter(row, m).endTime == row.endTime
  {
    if m.UpdateTaskIds? && m.updates != [] {
      RowAssignedKeeps(QueueRow(row, m.updates[0].analysis), m.updates, m.now);
    }
  }

  /** When messages name sub-tasks by their own ids, a run of the table is a run of each row. */
  lemma {:induction false} RunRowWise(rows: seq<Row>, messages: seq<Message>, idOf: (nat, string) -> string)
    requires DistinctIds(idOf) && UniqueKeys(rows) && OwnIds(rows, idOf)
    requires forall m :: m in messages ==> NamesOwnIds(m, idOf)
    ensures UniqueKeys(Run(rows, messages)) && OwnIds(Run(rows, messages), idOf) && SameKeys(rows, Run(rows, messages))
    ensures forall i :: 0 <= i < |rows| ==> Run(rows, messages)[i] == RowRun(rows[i], messages)
  {
    if messages != [] {
      var init, m := messages[..|messages| - 1], messages[|messages| - 1];
      assert m in messages;
      RunRowWise(rows, init, idOf);
      var before := Run(rows, init);
      ApplyRowWise(before, m, idOf);
      forall i | 0 <= i < |rows| { FullRowAfterKeeps(before[i], m); }
    }
  }

  /** The row after notices of its start and finish, as far as they have come. */
  predicate Noticed(row: Row, now: Row, started: bool, finished: bool, start: nat, finish: Status) {
    && SameKey(row, now)
    && now.startTime == (if started then Some(start) else None)
    && (if finished then now.status == finish else !now.status.Finished())
  }

  lemma NoticedStep(row: Row, now: Row, m: Message, started: bool, finished: bool, start: nat, finish: Status)
    requires Noticed(row, now, started, finished, start, finish) && Delivers(m, row, start, finish) && finish.Finished()
    ensures Noticed(row, FullRowAfter(now, m), started || (m.SubTaskStart? && IsAbout(m, row)),
                    finished || (FinishOf(m).Some? && IsAbout(m, row)), start, finish)
  {
    FullRowAfterKeeps(now, m);
  }

  lemma {:induction false} RowDelivery(row: Row, messages: seq<Message>, start: nat, finish: Status)
    requires row.status == Pending && row.startTime.None? && finish.Finished()
    requires forall m :: m in messages ==> Delivers(m, row, start, finish)
    ensures Noticed(row, RowRun(row, messages), StartNoticed(messages, row), FinishNoticed(messages, row), start, finish)
  {
    if messages != [] {
      var init, m := messages[..|messages| - 1], messages[|messages| - 1];
      assert messages == init + [m] && m in messages;
      RowDelivery(row, init, start, finish);
      NoticedStep(row, RowRun(row, init), m, StartNoticed(init, row), FinishNoticed(init, row), start, finish);
      assert StartNoticed(messages, row) <==> StartNoticed(init, row) || (m.SubTaskStart? && IsAbout(m, row));
      assert FinishNoticed(messages, row) <==> FinishNoticed(init, row) || (FinishOf(m).Some? && IsAbout(m, row));
    }
  }

  /** However id updates, the start notice and the finishing notice of a sub-task are interleaved
      and repeated, and whatever else is delivered in between, the sub-task ends in its finishing
      status with its own start time. */
  lemma DeliveryOrderDoesNotMatter(
      rows: seq<Row>, messages: seq<Message>, i: nat, idOf: (nat, string) -> string, start: nat, finish: Status)
    requires DistinctIds(idOf) && UniqueKeys(rows) && OwnIds(rows, idOf)
    requires i < |rows| && rows[i].status == Pending && rows[i].startTime.None? && finish.Finished()
    requires forall m :: m in messages ==> NamesOwnIds(m, idOf) && Delivers(m, rows[i], start, finish)
    ensures SameKeys(rows, Run(rows, messages)) && OwnIds(Run(rows, messages), idOf)
    ensures Run(rows, messages)[i].startTime == if StartNoticed(messages, rows[i]) then Some(start) else None
    ensures if FinishNoticed(messages, rows[i]) then Run(rows, messages)[i].status == finish
            else !Run(rows, messages)[i].status.Finished()
  {
    RunRowWise(rows, messages, idOf);
    RowDelivery(rows[i], messages, start, finish);
  }

  /** The message queues the row if it is pending. */
  predicate Queues(m: Message, row: Row) {
    m.UpdateTaskIds? && m.updates != [] && m.updates[0].analysis == row.analysis
  }

  predicate Starts(m: Message, row: Row) {
    m.SubTaskStart? && IsAbout(m, row)
  }

  ghost predicate QueuedBy(messages: seq<Message>, row: Row) {
    exists i :: 0 <= i < |messages| && Queues(messages[i], row)
  }

  ghost predicate StartedAfterQueued(messages: seq<Message>, row: Row) {
    exists i, j :: 0 <= i < j < |messages| && Queues(messages[i], row) && Starts(messages[j], row)
  }

  lemma QueuedOneMore(messages: seq<Message>, m: Message, row: Row)
    ensures QueuedBy(messages + [m], row) <==> QueuedBy(messages, row) || Queues(m, row)
    ensures StartedAfterQueued(messages + [m], row)
       <==> StartedAfterQueued(messages, row) || (QueuedBy(messages, row) && Starts(m, row))
  {
    var all := messages + [m];
    assert forall i :: 0 <= i < |messages| ==> all[i] == messages[i];
    assert all[|messages|] == m;
    if i :| 0 <= i < |messages| && Queues(messages[i], row) {
      assert Queues(all[i], row);
      if Starts(m, row) { assert Starts(all[|messages|], row); }
    }
    if i, j :| 0 <= i < j < |messages| && Queues(messages[i], row) && Starts(messages[j], row) {
      assert Queues(all[i], row) && Starts(all[j], row);
    }
  }

  /** What an unfinished row reads after some messages. */
  ghost function Unsettled(messages: seq<Message>, row: Row): Status {
    Reads(QueuedBy(messages, row), StartedAfterQueued(messages, row))
  }

  function Reads(queued: bool, started: bool): Status {
    if started then Started else if queued then Queued else Pending
  }

  lemma UnsettledStep(row: Row, now: Row, m: Message, queued: bool, started: bool, start: nat, finish: Status)
    requires SameKey(row, now) && now.status == Reads(queued, started) && (started ==> queued)
    requires Delivers(m, row, start, finish) && !(FinishOf(m).Some? && IsAbout(m, row))
    ensures FullRowAfter(now, m).status == Reads(queued || Queues(m, row), started || (queued && Starts(m, row)))
  {
    FullRowAfterKeeps(now, m);
  }

  lemma {:induction false} RowUnsettled(row: Row, messages: seq<Message>, start: nat, finish: Status)
    requires row.status == Pending && row.startTime.None? && finish.Finished()
    requires forall m :: m in messages ==> Delivers(m, row, start, finish)
    ensures !FinishNoticed(messages, row) ==> RowRun(row, messages).status == Unsettled(messages, row)
  {
    if messages != [] {
      var init, m := messages[..|messages| - 1], messages[|messages| - 1];
      assert messages == init + [m] && m in messages;
      RowUnsettled(row, init, start, finish);
      RowDelivery(row, init, start, finish);
      QueuedOneMore(init, m, row);
      assert FinishNoticed(messages, row) <==> FinishNoticed(init, row) || (FinishOf(m).Some? && IsAbout(m, row));
      if !FinishNoticed(messages, row) {
        UnsettledStep(row, RowRun(row, init), m, QueuedBy(init, row), StartedAfterQueued(init, row), start, finish);
      }
    }
  }

  /** Before its finishing notice the order does matter: the sub-task reads started exactly when a start
      notice came after a message that queued it, else queued when one queued it, else pending. */
  lemma UnfinishedFollowsOrder(
      rows: seq<Row>, messages: seq<Message>, i: nat, idOf: (nat, string) -> string, start: nat, finish: Status)
    requires DistinctIds(idOf) && UniqueKeys(rows) && OwnIds(rows, idOf)
    requires i < |rows| && rows[i].status == Pending && rows[i].startTime.None? && finish.Finished()
    requires forall m :: m in messages ==> NamesOwnIds(m, idOf) && Delivers(m, rows[i], start, finish)
    ensures !FinishNoticed(messages, rows[i]) ==> Run(rows, messages)[i].status == Unsettled(messages, rows[i])
  {
    RunRowWise(rows, messages, idOf);
    RowUnsettled(rows[i], messages, start, finish);
  }

  lemma RowKeepsOwnId(row: Row, m: Message, idOf: (nat, string) -> string)
    requires NamesOwnIds(m, idOf) && row.taskId == idOf(row.analysis, row.slug)
    ensures FullRowAfter(row, m).taskId == row.taskId
  {
    if m.UpdateTaskIds? && m.updates != [] {
      RowAssignedKeepsOwnId(QueueRow(row, m.updates[0].analysis), m.updates, m.now, idOf);
    }
  }

  lemma {:induction false} RowAssignedKeepsOwnId(row: Row, updates: seq<TaskUpdate>, now: nat, idOf: (nat, string) -> string)
    requires row.taskId == idOf(row.analysis, row.slug)
    requires forall u :: u in updates ==> u.taskId == idOf(u.analysis, u.slug)
    ensures RowAssigned(row, updates, now).taskId == row.taskId && SameKey(row, RowAssigned(row, updates, now))
  {
    if updates != [] {
      assert updates[|updates| - 1] in updates;
      RowAssignedKeepsOwnId(row, updates[..|updates| - 1], now, idOf);
    }
  }

  lemma {:induction false} RowRunKeepsOwnId(row: Row, messages: seq<Message>, idOf: (nat, string) -> string)
    requires row.taskId == idOf(row.analysis, row.slug) && forall m :: m in messages ==> NamesOwnIds(m, idOf)
    ensures RowRun(row, messages).taskId == row.taskId && SameKey(row, RowRun(row, messages))
  {
    if messages != [] {
      var init, m := messages[..|messages| - 1], messages[|messages| - 1];
      assert m in messages;
      RowRunKeepsOwnId(row, init, idOf);
      RowKeepsOwnId(RowRun(row, init), m, idOf);
      FullRowAfterKeeps(RowRun(row, init), m);
    }
  }

  // ---- what arrives in a row -----------------------------------------------

  /** The id a row is given by the last update that names it. */
  function LastNaming(updates: seq<TaskUpdate>, row: Row): Option<string> {
    if updates == [] then None
    else
      var u := updates[|updates| - 1];
      if u.analysis == row.analysis && u.slug == row.slug then Some(u.taskId) else LastNaming(updates[..|updates| - 1], row)
  }

  lemma {:induction false} UpdatesArrive(rows: seq<Row>, updates: seq<TaskUpdate>, now: nat, i: nat)
    requires AssignAll(rows, updates, now).Some? && i < |rows|
    ensures AssignAll(rows, updates, now).value[i]
         == match LastNaming(updates, rows[i])
            case Some(id) => rows[i].(taskId := id, queueTime := Some(now))
            case None => rows[i]
  {
    if updates != [] {
      UpdatesArrive(rows, updates[..|updates| - 1], now, i);
    }
  }

  /** An update that does not raise gives each row it names the id of the last entry naming it and its own
      time as queue time, and no other row; it queues the pending rows of its first entry's analysis
      and changes nothing else. */
  lemma IdUpdateArrives(rows: seq<Row>, updates: seq<TaskUpdate>, now: nat, i: nat)
    requires updates != [] && AssignAll(QueueAll(rows, updates[0].analysis), updates, now).Some? && i < |rows|
    ensures var row := Apply(rows, UpdateTaskIds(updates, now))[i];
      && row.taskId == LastNaming(updates, rows[i]).GetOr(rows[i].taskId)
      && row.queueTime == (if LastNaming(updates, rows[i]).Some? then Some(now) else rows[i].queueTime)
      && row.status == (if rows[i].analysis == updates[0].analysis && rows[i].status == Pending then Queued else rows[i].status)
      && row == rows[i].(taskId := row.taskId, queueTime := row.queueTime, status := row.status)
  {
    UpdatesArrive(QueueAll(rows, updates[0].analysis), updates, now, i);
    SameNaming(updates, rows[i], QueueAll(rows, updates[0].analysis)[i]);
  }

  lemma {:induction false} SameNaming(updates: seq<TaskUpdate>, a: Row, b: Row)
    requires a.analysis == b.analysis && a.slug == b.slug
    ensures LastNaming(updates, a) == LastNaming(updates, b)
  {
    if updates != [] {
      SameNaming(updates[..|updates| - 1], a, b);
    }
  }

  /** The message tells the row's sub-task id: an update with an entry for it, or a start, success or
      failure notice of it. */
  ghost predicate TellsId(m: Message, row: Row) {
    match m
    case UpdateTaskIds(updates, _) => exists u :: u in updates && u.analysis == row.analysis && u.slug == row.slug
    case SubTaskStart(_, _, _, _, _) => IsAbout(m, row)
    case SubTaskSuccess(_, _, _, _) => IsAbout(m, row)
    case SubTaskFailure(_, _, _, _) => IsAbout(m, row)
    case _ => false
  }

  lemma {:induction false} AssignedId(row: Row, updates: seq<TaskUpdate>, now: nat, idOf: (nat, string) -> string)
    requires forall u :: u in updates ==> u.taskId == idOf(u.analysis, u.slug)
    ensures RowAssigned(row, updates, now).taskId
         == if exists u :: u in updates && u.analysis == row.analysis && u.slug == row.slug then idOf(row.analysis, row.slug)
            else row.taskId
  {
    if updates != [] {
      var init, last := updates[..|updates| - 1], updates[|updates| - 1];
      assert updates == init + [last] && last in updates;
      AssignedId(row, init, now, idOf);
      RowAssignedKeeps(row, init, now);
    }
  }

  lemma ToldId(row: Row, m: Message, idOf: (nat, string) -> string)
    requires NamesOwnIds(m, idOf)
    ensures FullRowAfter(row, m).taskId == if TellsId(m, row) then idOf(row.analysis, row.slug) else row.taskId
  {
    if m.UpdateTaskIds? && m.updates != [] {
      AssignedId(QueueRow(row, m.updates[0].analysis), m.updates, m.now, idOf);
    }
  }

  /** Over a run with own ids a row has its sub-task's id once a message has told it, and the one it had
      before until then. */
  lemma {:induction false} IdArrives(row: Row, messages: seq<Message>, idOf: (nat, string) -> string)
    requires forall m :: m in messages ==> NamesOwnIds(m, idOf)
    ensures SameKey(row, RowRun(row, messages))
    ensures RowRun(row, messages).taskId
         == if exists m :: m in messages && TellsId(m, row) then idOf(row.analysis, row.slug) else row.taskId
  {
    if messages != [] {
      var init, m := messages[..|messages| - 1], messages[|messages| - 1];
      assert messages == init + [m] && m in messages;
      IdArrives(row, init, idOf);
      ToldId(RowRun(row, init), m, idOf);
      FullRowAfterKeeps(RowRun(row, init), m);
    }
  }

  lemma RunTellsIds(rows: seq<Row>, messages: seq<Message>, i: nat, idOf: (nat, string) -> string)
    requires DistinctIds(idOf) && UniqueKeys(rows) && OwnIds(rows, idOf) && i < |rows|
    requires forall m :: m in messages ==> NamesOwnIds(m, idOf)
    ensures Run(rows, messages)[i].taskId
         == if exists m :: m in messages && TellsId(m, rows[i]) then idOf(rows[i].analysis, rows[i].slug) else rows[i].taskId
  {
    RunRowWise(rows, messages, idOf);
    IdArrives(rows[i], messages, idOf);
  }

  /** How often a run reports a retry of the row's sub-task. */
  function Retries(messages: seq<Message>, row: Row): nat {
    if messages == [] then 0
    else
      var m := messages[|messages| - 1];
      Retries(messages[..|messages| - 1], row) + if m.RetryLog? && IsAbout(m, row) then 1 else 0
  }

  lemma {:induction false} AssignedKeepsRetries(row: Row, updates: seq<TaskUpdate>, now: nat)
    ensures RowAssigned(row, updates, now).retryCount == row.retryCount
  {
    if updates != [] {
      AssignedKeepsRetries(row, updates[..|updates| - 1], now);
    }
  }

  /** A row counts the retries reported of its sub-task, and nothing else. */
  lemma {:induction false} RetriesAreCounted(row: Row, messages: seq<Message>)
    ensures SameKey(row, RowRun(row, messages))
    ensures RowRun(row, messages).retryCount == row.retryCount + Retries(messages, row)
  {
    if messages != [] {
      var init, m := messages[..|messages| - 1], messages[|messages| - 1];
      RetriesAreCounted(row, init);
      FullRowAfterKeeps(RowRun(row, init), m);
      if m.UpdateTaskIds? && m.updates != [] {
        AssignedKeepsRetries(QueueRow(RowRun(row, init), m.updates[0].analysis), m.updates, m.now);
      }
    }
  }

  // ---- how a row is finished -----------------------------------------------

  /** The message is a finishing notice of the row's sub-task. */
  predicate IsFinish(m: Message, row: Row) {
    (m.SubTaskSuccess? || m.SubTaskFailure? || m.SetSubTaskStatus?) && m.analysis == row.analysis && m.slug == row.slug
  }

  /** The message would cancel the row: a cancel whatever unfinished row, a chord's failure a queued or
      started one. */
  predicate IsCancel(m: Message, row: Row) {
    (m.CancelSubTasks? && m.analysis == row.analysis && row.status in {Pending, Queued, Status.Started})
    || (m.ChordError? && m.analysis == row.analysis && row.status in {Queued, Status.Started})
  }

  /** A success notice completes the row, a failure notice marks it failed, a cancel cancelled, each ending
      it at its own time; every other message leaves its end time, and whether it is finished, alone. */
  lemma FinishedAs(row: Row, m: Message)
    ensures var after := FullRowAfter(row, m);
      if IsFinish(m, row) then
        after.endTime == Some(m.now)
        && (m.SubTaskSuccess? ==> after.status == Completed) && (m.SubTaskFailure? ==> after.status == Error)
        && (m.SetSubTaskStatus? ==> after.status == m.status)
      else if IsCancel(m, row) then
        after.status == Cancelled && after.endTime == Some(m.now)
      else
        after.endTime == row.endTime && (after.status.Finished() <==> row.status.Finished())
        && (row.status.Finished() ==> after.status == row.status)
  {
    FullRowAfterKeeps(row, m);
  }

  /** A cancelled row stays cancelled, with its end time, until a finishing notice of it comes. */
  lemma {:induction false} CancelledUntilNotice(row: Row, messages: seq<Message>)
    requires row.status == Cancelled && forall m :: m in messages ==> !IsFinish(m, row)
    ensures RowRun(row, messages).status == Cancelled && RowRun(row, messages).endTime == row.endTime
    ensures SameKey(row, RowRun(row, messages))
  {
    if messages != [] {
      var init, m := messages[..|messages| - 1], messages[|messages| - 1];
      assert m in messages;
      CancelledUntilNotice(row, init);
      FinishedAs(RowRun(row, init), m);
      FullRowAfterKeeps(RowRun(row, init), m);
    }
  }

  /** Cancelling takes every unfinished row of the analysis to cancelled, and touches no other. */
  lemma CancelReachesUnfinished(rows: seq<Row>, analysis: nat, now: nat, i: nat)
    requires UniqueIds(rows) && i < |rows|
    ensures Apply(rows, CancelSubTasks(analysis, now))[i]
         == if rows[i].analysis == analysis && rows[i].status in {Pending, Queued, Status.Started}
            then rows[i].(status := Cancelled, endTime := Some(now)) else rows[i]
  {
    assert forall j :: 0 <= j < |rows| ==> AllAfter(rows, CancelSubTasks(analysis, now))[j].taskId == rows[j].taskId;
  }

  // ---- the id recorder's stale rows ----------------------------------------

  /** Saving one row object of an earlier read, with its celery id set: every column is written. */
  function SaveSnapshot(rows: seq<Row>, i: nat, snapshot: Row, taskId: string): seq<Row>
    requires i < |rows|
  {
    rows[i := snapshot.(taskId := taskId)]
  }

  /** The message takes the row a step further: it queues, starts or finishes it. */
  predicate Moves(m: Message, row: Row) {
    match m
    case UpdateTaskIds(updates, _) => updates != [] && updates[0].analysis == row.analysis && row.status == Pending
    case SubTaskStart(_, _, _, _, _) => IsAbout(m, row) && (row.startTime.None? || row.status == Queued)
    case CancelSubTasks(analysis, _) => analysis == row.analysis && !row.status.Finished()
    case ChordError(analysis, _) => analysis == row.analysis && (row.status.Queued? || row.status.Started?)
    case RetryLog(_, _) => false
    case _ => IsAbout(m, row) && !row.status.Finished()
  }

  /** Neither its rank nor its start time has changed. */
  predicate Unmoved(before: Row, after: Row) {
    before.status.Rank() == after.status.Rank() && before.startTime == after.startTime
  }

  lemma MovesOrNot(row: Row, m: Message)
    requires FinishingNotice(m)
    ensures Forward(row, FullRowAfter(row, m))
    ensures Unmoved(row, FullRowAfter(row, m)) <==> !Moves(m, row)
  {
    FullRowAfterKeeps(row, m);
  }

  lemma {:induction false} UnmovedIffNothingMoves(row: Row, messages: seq<Message>)
    requires forall m :: m in messages ==> FinishingNotice(m)
    ensures Forward(row, RowRun(row, messages))
    ensures Unmoved(row, RowRun(row, messages)) <==> forall m :: m in messages ==> !Moves(m, row)
  {
    if messages != [] {
      var init, m := messages[..|messages| - 1], messages[|messages| - 1];
      assert messages == init + [m] && m in messages;
      UnmovedIffNothingMoves(row, init);
      MovesOrNot(RowRun(row, init), m);
    }
  }

  /** `_record_subtask_ids` reads the rows, then saves them one by one while workers already report.
      A save takes the row back exactly when one of the messages in between would have moved the row
      as it was read. */
  lemma StaleSaveGoesForward(rows: seq<Row>, messages: seq<Message>, i: nat, taskId: string, idOf: (nat, string) -> string)
    requires DistinctIds(idOf) && UniqueKeys(rows) && OwnIds(rows, idOf) && i < |rows|
    requires forall m :: m in messages ==> FinishingNotice(m) && NamesOwnIds(m, idOf)
    ensures var now := Run(rows, messages);
      Forward(now[i], SaveSnapshot(now, i, rows[i], taskId)[i]) <==> forall m :: m in messages ==> !Moves(m, rows[i])
  {
    RunRowWise(rows, messages, idOf);
    UnmovedIffNothingMoves(rows[i], messages);
  }

  /** A sub-task that started between the recorder's read and its save is pending again afterwards. */
  lemma StaleSaveLosesStart()
    ensures
      var rows := [NewRow(0, 1, "write-input-files")];
      var messages := [UpdateTaskIds([TaskUpdate("x", 1, "write-input-files")], 5),
                       SubTaskStart(1, "write-input-files", "x", Some(6), 7)];
      var now := Run(rows, messages);
      now[0].status == Status.Started && SaveSnapshot(now, 0, rows[0], "x")[0].status == Pending
      && SaveSnapshot(now, 0, rows[0], "x")[0].startTime == None
  {
    var rows := [NewRow(0, 1, "write-input-files")];
    var update := UpdateTaskIds([TaskUpdate("x", 1, "write-input-files")], 5);
    var start := SubTaskStart(1, "write-input-files", "x", Some(6), 7);
    assert [update, start][..1] == [update] && [update][..0] == [];
    assert AssignAll(QueueAll(rows, 1), update.updates[..0], 5) == Some(QueueAll(rows, 1));
    assert Apply(rows, update)[0].status == Queued;
    assert Run(rows, [update]) == Apply(rows, update);
  }
}
