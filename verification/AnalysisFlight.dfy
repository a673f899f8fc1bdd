/** An analysis together with the chain of sub-tasks it has in flight: when a second start gets through
    before the first one is over. What a chain tells the server comes from
    src/model_execution_worker/distributed_tasks.py (a stage has started, there are no keys),
    src/model_execution_worker/celery_error_handler.py (a task was given up) and
    src/server/oasisapi/analyses/v2_api/tasks.py (a stage's files are there, the chain has failed). */
module AnalysisFlight {
  import opened Options
  import opened ChunkCounts
  import opened AnalysisLifecycle

  datatype Stage = Inputs | Losses

  /** What a chain in flight still delivers. `CleansUp` is its clean-up task, which changes no status but
      can still fail; `Fails` is the failure callback of a broken chain, which comes later, as it is
      retried while logs are pending. */
  datatype Delivery = Started(stage: Stage) | Records(stage: Stage) | CleansUp(stage: Stage) | Fails(stage: Stage)

  function ErrorOf(stage: Stage): Status {
    if stage.Inputs? then InputsError else RunError
  }

  function Delivered(s: State, d: Delivery): State {
    match d
    case Started(stage) => Next(s, StatusNotice(if stage.Inputs? then InputsStarted else RunStarted))
    case Records(stage) => Next(s, if stage.Inputs? then RecordInputFiles(Ready) else RecordLossesFiles)
    case CleansUp(_) => s
    case Fails(stage) => Next(s, TaskFailure(ErrorOf(stage), false, 0))
  }

  function AllDelivered(s: State, ds: seq<Delivery>): State
    decreases |ds|
  {
    if ds == [] then s else AllDelivered(Delivered(s, ds[0]), ds[1..])
  }

  function StageDeliveries(stage: Stage): seq<Delivery> {
    [Started(stage), Records(stage), CleansUp(stage)]
  }

  /** What the chain of an accepted distributed start delivers. */
  function Deliveries(start: Event): seq<Delivery>
    requires IsStart(start)
  {
    match start
    case Run(_, _) => StageDeliveries(Losses)
    case GenerateInputs(_, _) => StageDeliveries(Inputs)
    case GenerateAndRun(_) => StageDeliveries(Inputs) + StageDeliveries(Losses)
  }

  /** The stage a cancel got through in, since the last start or recorded files. */
  datatype Cut = Uncut | CutIn(stage: Stage)

  /** How the chain's latest stage came out, from when it says so until its next stage starts. */
  datatype Outcome = Pending | Recorded(stage: Stage) | KeysMissing | GivenUp(stage: Stage)

  /** `todo` is what the chain last started still delivers. A cancel does not take the chain out of
      flight: revoking is best effort. */
  datatype Flight = Flight(state: State, todo: seq<Delivery>, cut: Cut, outcome: Outcome)

  datatype Move =
    | Command(command: Event)
    | Progress
    | FindsNoKeys
    | Breaks
    | GivesUp

  predicate PossibleMove(move: Move) {
    move.Command? ==> IsStart(move.command) || IsCancel(move.command)
  }

  /** A task of the chain can still fail. */
  predicate Intact(f: Flight) {
    f.todo != [] && !f.todo[0].Fails?
  }

  /** `FindsNoKeys`: `write_input_files` sends its notice and raises. `Breaks`: any other failure of a
      task. `GivesUp`: a task delivered too often sends its stage's error status. */
  function Step(f: Flight, move: Move): Flight
    requires PossibleMove(move)
  {
    match move
    case Command(command) =>
      if ReplyTo(f.state, command).Rejected? then f
      else if IsStart(command) then Flight(Next(f.state, command), Deliveries(command), Uncut, Pending)
      else f.(state := Next(f.state, command), cut := if f.todo == [] then f.cut else CutIn(f.todo[0].stage))
    case Progress =>
      if f.todo == [] then f
      else
        var d := f.todo[0];
        Flight(Delivered(f.state, d), f.todo[1..], if d.Records? then Uncut else f.cut,
               if d.Records? then Recorded(d.stage) else if d.Started? then Pending else f.outcome)
    case FindsNoKeys =>
      if f.todo == [] || f.todo[0] != Records(Inputs) then f
      else f.(state := Next(f.state, StatusNotice(InputsNoKeys)), todo := [Fails(Inputs)], outcome := KeysMissing)
    case Breaks =>
      if Intact(f) then f.(todo := [Fails(f.todo[0].stage)]) else f
    case GivesUp =>
      if !Intact(f) then f
      else
        var stage := f.todo[0].stage;
        f.(state := Next(f.state, StatusNotice(ErrorOf(stage))), todo := [Fails(stage)], outcome := GivenUp(stage))
  }

  function Fly(f: Flight, moves: seq<Move>): Flight
    requires forall move :: move in moves ==> PossibleMove(move)
  {
    if moves == [] then f
    else
      assert moves[|moves| - 1] in moves;
      Step(Fly(f, moves[..|moves| - 1]), moves[|moves| - 1])
  }

  /** A start gets through although a chain is in flight. */
  predicate Overlaps(f: Flight, move: Move) {
    move.Command? && IsStart(move.command) && f.todo != [] && ReplyTo(f.state, move.command).Accepted?
  }

  ghost predicate NoOverlap(f: Flight, moves: seq<Move>)
    requires forall move :: move in moves ==> PossibleMove(move)
  {
    forall i :: 0 <= i < |moves| ==> !Overlaps(Fly(f, moves[..i]), moves[i])
  }

  // ---- the status tells where the chain is ---------------------------------

  /** What can follow a stage. */
  predicate EndsOn(rest: seq<Delivery>, stage: Stage) {
    rest == [] || (stage.Inputs? && rest == StageDeliveries(Losses))
  }

  predicate OnCourse(f: Flight) {
    f.todo == [] || (
      match f.todo[0]
      case Started(stage) =>
        |f.todo| >= 3 && f.todo[..3] == StageDeliveries(stage) && EndsOn(f.todo[3..], stage)
        && (stage.Inputs? ==> f.outcome == Pending)
      case Records(stage) =>
        |f.todo| >= 2 && f.todo[1] == CleansUp(stage) && EndsOn(f.todo[2..], stage) && f.outcome == Pending
      case CleansUp(stage) => EndsOn(f.todo[1..], stage) && f.outcome == Recorded(stage)
      case Fails(_) => |f.todo| == 1)
  }

  /** The status of an analysis whose chain goes undisturbed. */
  predicate Undisturbed(f: Flight)
    requires f.todo != []
  {
    match f.outcome
    case Pending => f.state.status.Active() && (f.state.status.Generating() <==> f.todo[0].stage.Inputs?)
    case Recorded(stage) => f.state.status == if stage.Inputs? then Ready else RunCompleted
    case KeysMissing => f.state.status.InputsNoKeys?
    case GivenUp(stage) => f.state.status == ErrorOf(stage)
  }

  predicate Consistent(f: Flight) {
    && OnCourse(f)
    && (f.state.status.InputsCancelled? <==> f.cut == CutIn(Inputs))
    && (f.state.status.RunCancelled? <==> f.cut == CutIn(Losses))
    && (f.cut == Uncut ==> if f.todo == [] then !f.state.status.Active() else Undisturbed(f))
  }

  lemma CommandConsistent(f: Flight, command: Event)
    requires Consistent(f) && PossibleMove(Command(command)) && !Overlaps(f, Command(command))
    ensures Consistent(Step(f, Command(command)))
  {
    if ReplyTo(f.state, command).Accepted? {
      if IsStart(command) {
        StartConsistent(f, command);
      } else {
        CancelConsistent(f, command);
      }
    }
  }

  lemma StartConsistent(f: Flight, start: Event)
    requires IsStart(start) && ReplyTo(f.state, start).Accepted?
    ensures Consistent(Step(f, Command(start)))
  {
    var ds := Deliveries(start);
    assert ds[..3] == StageDeliveries(ds[0].stage);
    assert ds[3..] == if start.GenerateAndRun? then StageDeliveries(Losses) else [];
  }

  lemma CancelConsistent(f: Flight, cancel: Event)
    requires Consistent(f) && IsCancel(cancel) && ReplyTo(f.state, cancel).Accepted?
    ensures Consistent(Step(f, Command(cancel)))
  {
    CommandsRespectActivity(f.state, cancel);
    CancelledWhenCut(f);
    assert f.cut == Uncut && f.todo != [] && f.outcome == Pending;
  }

  lemma CancelledWhenCut(f: Flight)
    requires Consistent(f)
    ensures f.cut != Uncut ==> f.state.status == if f.cut.stage.Inputs? then InputsCancelled else RunCancelled
  {
    if f.cut != Uncut {
      match f.cut.stage
      case Inputs => assert f.cut == CutIn(Inputs);
      case Losses => assert f.cut == CutIn(Losses);
    }
  }

  lemma ProgressConsistent(f: Flight)
    requires Consistent(f)
    ensures Consistent(Step(f, Progress))
  {
  }

  lemma FailureConsistent(f: Flight, move: Move)
    requires Consistent(f) && (move.FindsNoKeys? || move.Breaks? || move.GivesUp?)
    ensures Consistent(Step(f, move))
  {
  }

  lemma StepConsistent(f: Flight, move: Move)
    requires Consistent(f) && PossibleMove(move) && !Overlaps(f, move)
    ensures Consistent(Step(f, move))
  {
    match move
    case Command(command) => CommandConsistent(f, command);
    case Progress => ProgressConsistent(f);
    case _ => FailureConsistent(f, move);
  }

  lemma NoOverlapBefore(f: Flight, moves: seq<Move>)
    requires moves != [] && (forall move :: move in moves ==> PossibleMove(move)) && NoOverlap(f, moves)
    ensures NoOverlap(f, moves[..|moves| - 1])
    ensures PossibleMove(moves[|moves| - 1]) && !Overlaps(Fly(f, moves[..|moves| - 1]), moves[|moves| - 1])
  {
    var n := |moves| - 1;
    assert moves[n] in moves;
    assert forall i :: 0 <= i < n ==> moves[..n][..i] == moves[..i];
  }

  lemma {:induction false} FlightConsistent(f: Flight, moves: seq<Move>)
    requires Consistent(f) && (forall move :: move in moves ==> PossibleMove(move)) && NoOverlap(f, moves)
    ensures Consistent(Fly(f, moves))
  {
    if moves != [] {
      var n := |moves| - 1;
      NoOverlapBefore(f, moves);
      FlightConsistent(f, moves[..n]);
      StepConsistent(Fly(f, moves[..n]), moves[n]);
    }
  }

  // ---- the second start ----------------------------------------------------

  /** Exactly when a start gets through before the chain in flight is over, after any run without such a
      start: it must be one the analysis would accept were it ready, and either the chain was
      cancelled - during its losses, if the start is a run - or its latest stage has come out and the
      next one has not started - and it left something to run, if the start is a run. */
  lemma SecondStartExactly(f: Flight, moves: seq<Move>, start: Event)
    requires Consistent(f) && (forall move :: move in moves ==> PossibleMove(move)) && NoOverlap(f, moves)
    requires IsStart(start) && Fly(f, moves).todo != []
    ensures var now := Fly(f, moves);
      ReplyTo(now.state, start).Accepted?
      <==> ReplyTo(now.state.(status := Ready), start).Accepted? && OpenTo(now, start)
  {
    FlightConsistent(f, moves);
    StartNeedsStatus(Fly(f, moves).state, start);
    StatusWhenOpen(Fly(f, moves), start);
  }

  predicate OpenTo(f: Flight, start: Event) {
    match f.cut
    case CutIn(stage) => start.Run? ==> stage == Losses
    case Uncut => f.outcome != Pending && (start.Run? ==> f.outcome.Recorded? || f.outcome == GivenUp(Losses))
  }

  lemma StatusWhenOpen(f: Flight, start: Event)
    requires Consistent(f) && f.todo != []
    ensures (if start.Run? then f.state.status.MayRun() else f.state.status.MayGenerate()) <==> OpenTo(f, start)
  {
    CancelledWhenCut(f);
  }

  lemma StartNeedsStatus(s: State, start: Event)
    requires IsStart(start)
    ensures ReplyTo(s, start).Accepted?
       <==> ReplyTo(s.(status := Ready), start).Accepted?
            && if start.Run? then s.status.MayRun() else s.status.MayGenerate()
  {
    match start
    case Run(_, _) =>
    case GenerateInputs(setup, override) =>
      if setup.model.Some? && ResolveRunMode(setup.model.value, override).Some? {
        ErrorsBesidesStatus(s, setup, setup.model.value, ResolveRunMode(setup.model.value, override).value);
      }
    case GenerateAndRun(setup) =>
      if setup.model.Some? {
        ErrorsBesidesStatus(s, setup, setup.model.value, V2);
      }
  }

  lemma ErrorsBesidesStatus(s: State, setup: Setup, model: Model, mode: RunMode)
    ensures GenerateErrors(setup, s, model, mode)
         == GenerateErrors(setup, s.(status := Ready), model, mode) + if s.status.MayGenerate() then {} else {"status"}
  {
  }

  /** With no chain in flight no start is refused for a status of work in progress. */
  lemma IdleWhenNothingFlies(f: Flight, moves: seq<Move>)
    requires Consistent(f) && (forall move :: move in moves ==> PossibleMove(move)) && NoOverlap(f, moves)
    ensures Fly(f, moves).todo == [] ==> !Fly(f, moves).state.status.Active()
  {
    FlightConsistent(f, moves);
    CancelledWhenCut(Fly(f, moves));
  }

  // ---- what an overlap costs -----------------------------------------------

  /** Input generation started before the losses of a joint run ends up as a completed run without input
      files when the older chain goes through, and no run is accepted then. */
  lemma OverlapLosesInputs(f: Flight, start: Event, run: Event)
    requires OnCourse(f) && f.outcome == Recorded(Inputs) && f.todo != [] && f.todo[|f.todo| - 1] == CleansUp(Losses)
    requires start.GenerateInputs? && Overlaps(f, Command(start)) && run.Run?
    ensures var after := AllDelivered(Step(f, Command(start)).state, f.todo);
      after.status == RunCompleted && !after.hasInput && ReplyTo(after, run).Rejected?
  {
    var s := Step(f, Command(start)).state;
    OnlyLossesLeft(f);
    assert AllDelivered(s, f.todo) == AllDelivered(s, StageDeliveries(Losses));
    StageDelivered(s, Losses);
    var after := AllDelivered(s, f.todo);
    if ReplyTo(after, run).Accepted? {
      CommandsRespectActivity(after, run);
    }
  }

  lemma OnlyLossesLeft(f: Flight)
    requires OnCourse(f) && f.outcome == Recorded(Inputs) && f.todo != [] && f.todo[|f.todo| - 1] == CleansUp(Losses)
    ensures f.todo == StageDeliveries(Losses) || (f.todo[0] == CleansUp(Inputs) && f.todo[1..] == StageDeliveries(Losses))
  {
    if f.todo[0].Started? {
      assert f.todo == f.todo[..3] + f.todo[3..];
    }
  }

  /** A chain that broke, but whose callback is still to come, writes its error over the status of the
      chain started meanwhile, which is all the while in flight. */
  lemma OldFailureOverwrites(f: Flight, start: Event)
    requires f.todo != [] && f.todo[0].Fails? && IsStart(start) && Overlaps(f, Command(start))
    ensures var next := Step(f, Command(start));
      next.todo == Deliveries(start) && next.state.status.Active()
      && Delivered(next.state, f.todo[0]).status == ErrorOf(f.todo[0].stage)
  {
    CommandsRespectActivity(f.state, start);
  }

  /** A notice that comes late, when its chain is over, makes the analysis look busy: a start that was
      acceptable is refused from then on, unless the analysis was cancelled. */
  lemma LateNoticeBlocksStarts(s: State, notice: Status, start: Event)
    requires notice.InputsStarted? || notice.RunStarted?
    requires IsStart(start) && ReplyTo(s, start).Accepted?
    ensures ReplyTo(Next(s, StatusNotice(notice)), start).Accepted? <==> s.status.Cancelled()
  {
    StartNeedsStatus(Next(s, StatusNotice(notice)), start);
  }

  // ---- from one stage to the other -----------------------------------------

  lemma StageDelivered(s: State, stage: Stage)
    requires !s.status.Cancelled()
    ensures AllDelivered(s, StageDeliveries(stage))
         == if stage.Inputs? then s.(status := Ready, hasInput := true) else s.(status := RunCompleted)
  {
    var ds := StageDeliveries(stage);
    assert ds[1..] == [Records(stage), CleansUp(stage)];
    assert ds[1..][1..] == [CleansUp(stage)];
    assert ds[1..][1..][1..] == [];
    var s1 := Delivered(s, Started(stage));
    assert AllDelivered(s, ds) == AllDelivered(s1, ds[1..]);
    assert AllDelivered(s1, ds[1..]) == AllDelivered(Delivered(s1, Records(stage)), ds[1..][1..]);
  }

  /** Once an accepted input generation has gone through, a run is accepted whenever model, mode and settings
      allow it; and once that has gone through, the run is completed, in its mode, with its input files. */
  lemma StagesFollowEachOther(s: State, inputs: Event, setup: Setup, override: Override, mode: RunMode)
    requires inputs.GenerateInputs? && ReplyTo(s, inputs).Accepted?
    requires setup.model.Some? && !setup.model.value.deleted && HasMode(setup.model.value, override, mode)
    requires setup.hasSettings && SettingsFit(setup, setup.model.value, mode)
    ensures var ready := AllDelivered(Next(s, inputs), Deliveries(inputs));
      var run := Event.Run(setup, override);
      && ready.status == Ready && ready.hasInput
      && ReplyTo(ready, run).Accepted?
      && AllDelivered(Next(ready, run), Deliveries(run)) == State(RunCompleted, Some(mode), true)
  {
    CommandsRespectActivity(s, inputs);
    StageDelivered(Next(s, inputs), Inputs);
    var ready := AllDelivered(Next(s, inputs), Deliveries(inputs));
    var run := Event.Run(setup, override);
    RunGoes(ready, setup, override, mode);
    StageDelivered(Next(ready, run), Losses);
  }

  lemma RunGoes(s: State, setup: Setup, override: Override, mode: RunMode)
    requires s.status == Ready && s.hasInput
    requires setup.model.Some? && !setup.model.value.deleted && HasMode(setup.model.value, override, mode)
    requires setup.hasSettings && SettingsFit(setup, setup.model.value, mode)
    ensures ReplyTo(s, Event.Run(setup, override)).Accepted?
    ensures Next(s, Event.Run(setup, override)) == State(RunQueued, Some(mode), true)
  {
    ModeIff(setup.model.value, override, mode);
    SettingsFitIff(setup, setup.model.value, mode);
    NoRunErrors(setup, s, setup.model.value, mode);
  }

  /** A joint run that goes through is completed, with its input files. */
  lemma JointRunGoesThrough(s: State, start: Event)
    requires start.GenerateAndRun? && ReplyTo(s, start).Accepted?
    ensures AllDelivered(Next(s, start), Deliveries(start)) == State(RunCompleted, Some(V2), true)
  {
    CommandsRespectActivity(s, start);
    GenerateAndRunAcceptedIff(s, start.setup);
    AllDeliveredAppend(Next(s, start), StageDeliveries(Inputs), StageDeliveries(Losses));
    StageDelivered(Next(s, start), Inputs);
    StageDelivered(AllDelivered(Next(s, start), StageDeliveries(Inputs)), Losses);
  }

  lemma {:induction false} AllDeliveredAppend(s: State, a: seq<Delivery>, b: seq<Delivery>)
    ensures AllDelivered(s, a + b) == AllDelivered(AllDelivered(s, a), b)
    decreases |a|
  {
    if a == [] {
      assert a + b == b;
    } else {
      AllDeliveredAppend(Delivered(s, a[0]), a[1..], b);
      assert (a + b)[1..] == a[1..] + b;
    }
  }

  // ---- two runs that overlap -----------------------------------------------

  const FRESH := Flight(State(New, None, false), [], Uncut, Pending)

  const SETUP := Setup(
    Some(Model(Some(V2), false, true)), Rows(10), true, true,
    ChunkingOptions(FixedChunks, FixedChunks, 1, 1, 1, Some(1), Some(1)), EventSettings(2, "", None))

  const BOTH := Event.GenerateAndRun(SETUP)
  const INPUTS := Event.GenerateInputs(SETUP, NoOverride)

  lemma FlyStep(f: Flight, moves: seq<Move>, move: Move)
    requires (forall m :: m in moves ==> PossibleMove(m)) && PossibleMove(move)
    ensures Fly(f, moves + [move]) == Step(Fly(f, moves), move)
  {
    assert (moves + [move])[..|moves|] == moves;
  }

  lemma FreshStart(start: Event)
    requires start == BOTH || start == INPUTS
    ensures Fly(FRESH, [Command(start)]) == Step(FRESH, Command(start))
    ensures ReplyTo(FRESH.state, start).Accepted?
  {
    FlyStep(FRESH, [], Command(start));
    assert [] + [Command(start)] == [Command(start)];
    assert JointErrors(SETUP, FRESH.state, SETUP.model.value) == {};
    assert GenerateErrors(SETUP, FRESH.state, SETUP.model.value, V2) == {};
  }

  /** A joint run of a new analysis: once its input files are recorded, a second start gets through. */
  lemma JointRunIsOpen()
    ensures var f := Fly(FRESH, [Command(BOTH)] + [Progress] + [Progress]);
      f.outcome == Recorded(Inputs) && f.todo != [] && Overlaps(f, Command(INPUTS))
  {
    FreshStart(BOTH);
    FlyStep(FRESH, [Command(BOTH)], Progress);
    FlyStep(FRESH, [Command(BOTH)] + [Progress], Progress);
    var f := Fly(FRESH, [Command(BOTH)] + [Progress] + [Progress]);
    assert GenerateErrors(SETUP, f.state, SETUP.model.value, V2) == {};
  }

  /** Input generation of a new analysis that finds no keys: it can be started again before the failure
      callback comes, which then marks the new one as failed. */
  lemma NoKeysRunIsOpen()
    ensures var f := Fly(FRESH, [Command(INPUTS)] + [Progress] + [FindsNoKeys]);
      f.outcome == KeysMissing && f.todo == [Fails(Inputs)] && Overlaps(f, Command(INPUTS))
      && Delivered(Step(f, Command(INPUTS)).state, f.todo[0]).status == InputsError
  {
    FreshStart(INPUTS);
    FlyStep(FRESH, [Command(INPUTS)], Progress);
    FlyStep(FRESH, [Command(INPUTS)] + [Progress], FindsNoKeys);
    var f := Fly(FRESH, [Command(INPUTS)] + [Progress] + [FindsNoKeys]);
    assert GenerateErrors(SETUP, f.state, SETUP.model.value, V2) == {};
    OldFailureOverwrites(f, INPUTS);
  }
}
