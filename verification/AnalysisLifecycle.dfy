/** The life of one analysis: the user commands of `Analysis` (src/server/oasisapi/analyses/models.py)
    and the V2 tasks that write its status (src/server/oasisapi/analyses/v2_api/tasks.py). Each
    command or delivered task is one atomic step. */
module AnalysisLifecycle {
  import opened Options
  import opened ChunkCounts
  import opened TaskCanvas
  import opened Sequences

  datatype Status =
    | New
    | InputsError | InputsNoKeys | InputsCancelled | InputsStarted | InputsQueued
    | Ready
    | RunQueued | RunStarted | RunCompleted | RunCancelled | RunError
  {
    /** `INPUTS_GENERATION_VALID_STATUSES` */
    predicate MayGenerate() {
      this in {New, InputsError, InputsNoKeys, InputsCancelled, Ready, RunCompleted, RunCancelled, RunError}
    }

    /** `RUN_VALID_STATUSES` */
    predicate MayRun() {
      this in {Ready, RunCompleted, RunError, RunCancelled}
    }

    predicate Generating() { InputsQueued? || InputsStarted? }
    predicate Running() { RunQueued? || RunStarted? }
    predicate Active() { Generating() || Running() }
    predicate Cancelled() { InputsCancelled? || RunCancelled? }
  }

  datatype RunMode = V1 | V2

  /** The `run_mode_override` of a request: absent, valid, or any other text. */
  datatype Override = NoOverride | Mode(mode: RunMode) | BadMode

  datatype Model = Model(runMode: Option<RunMode>, deleted: bool, hasSettings: bool)

  /** What a start command finds when it is given: it may differ from command to command. */
  datatype Setup = Setup(
    model: Option<Model>,
    location: LocationFile,
    hasAccounts: bool,
    hasSettings: bool,
    chunking: ChunkingOptions,
    events: EventSettings)

  datatype State = State(status: Status, runMode: Option<RunMode>, hasInput: bool)

  /** A command either goes through or names the fields it complains about. */
  datatype Reply = Accepted | Rejected(fields: set<string>)

  datatype Event =
    | Run(setup: Setup, override: Override)
    | GenerateInputs(setup: Setup, override: Override)
    | GenerateAndRun(setup: Setup)
    | CancelRun
    | CancelGenerate
    | CancelAny
    | StatusNotice(notice: Status)
    | TaskFailure(failure: Status, logsPending: bool, retries: nat)
    | RecordInputFiles(finish: Status)
    | RecordLossesFiles

  // ---- validation ----------------------------------------------------------

  function ResolveRunMode(model: Model, override: Override): Option<RunMode> {
    match override
    case NoOverride => model.runMode
    case Mode(mode) => Some(mode)
    case BadMode => None
  }

  function LossProblems(setup: Setup, model: Model, mode: RunMode): set<string> {
    if mode != V2 || setup.chunking.lossStrategy != DynamicChunks then {}
    else if !model.hasSettings then {"model_settings_file"}
    else if setup.hasSettings then EventProblems(setup.events)
    else {}
  }

  function PortfolioProblems(setup: Setup, mode: RunMode): set<string> {
    if mode == V1 then
      if setup.location == NoFile && !setup.hasAccounts then {"portfolio"} else {}
    else if LocationAccepted(setup.location, setup.chunking.lookupStrategy) then {} else {"portfolio"}
  }

  predicate EventsUnreadable(setup: Setup, mode: RunMode) {
    mode == V2 && setup.chunking.lossStrategy == DynamicChunks && NumEvents(setup.events).None?
  }

  // ---- one step ------------------------------------------------------------

  const MAX_RETRIES: nat := 8

  function RunErrors(setup: Setup, s: State, model: Model, mode: RunMode): set<string> {
    (if model.deleted then {"model"} else {})
    + (if setup.hasSettings then {} else {"analysis_settings_file"})
    + (if s.hasInput then {} else {"input_file"})
    + LossProblems(setup, model, mode)
  }

  function GenerateErrors(setup: Setup, s: State, model: Model, mode: RunMode): set<string> {
    (if s.status.MayGenerate() then {} else {"status"})
    + (if model.deleted then {"model"} else {})
    + PortfolioProblems(setup, mode)
  }

  function JointErrors(setup: Setup, s: State, model: Model): set<string> {
    GenerateErrors(setup, s, model, V2)
    + (if model.runMode == Some(V2) then {} else {"model"})
    + (if setup.hasSettings then {} else {"settings_file"})
    + LossProblems(setup, model, V2)
  }

  function RunReply(setup: Setup, s: State, override: Override): Reply {
    if setup.model.None? then Rejected({"model"})
    else if !s.status.MayRun() then Rejected({"status"})
    else
      var model := setup.model.value;
      var mode := ResolveRunMode(model, override);
      if mode.None? then Rejected(if override == NoOverride then {"model"} else {"run_mode"})
      else if RunErrors(setup, s, model, mode.value) != {} then Rejected(RunErrors(setup, s, model, mode.value))
      else if EventsUnreadable(setup, mode.value) then Rejected({"events"})
      else Accepted
  }

  function GenerateReply(setup: Setup, s: State, override: Override): Reply {
    if setup.model.None? then Rejected({"model"})
    else
      var model := setup.model.value;
      var mode := ResolveRunMode(model, override);
      if mode.None? then Rejected(if override == NoOverride then {"model"} else {"run_mode"})
      else if GenerateErrors(setup, s, model, mode.value) != {} then Rejected(GenerateErrors(setup, s, model, mode.value))
      else Accepted
  }

  function GenerateAndRunReply(setup: Setup, s: State): Reply {
    if setup.model.None? then Rejected({"model"})
    else
      var model := setup.model.value;
      if JointErrors(setup, s, model) != {} then Rejected(JointErrors(setup, s, model))
      else if EventsUnreadable(setup, V2) then Rejected({"events"})
      else Accepted
  }

  function CancelReply(allowed: bool): Reply {
    if allowed then Accepted else Rejected({"status"})
  }

  /** The reply to a user command; deliveries always go through. */
  function ReplyTo(s: State, e: Event): Reply {
    match e
    case Run(setup, override) => RunReply(setup, s, override)
    case GenerateInputs(setup, override) => GenerateReply(setup, s, override)
    case GenerateAndRun(setup) => GenerateAndRunReply(setup, s)
    case CancelRun => CancelReply(s.status.Running())
    case CancelGenerate => CancelReply(s.status.Generating())
    case CancelAny => CancelReply(s.status.Active())
    case _ => Accepted
  }

  function Next(s: State, e: Event): State {
    if ReplyTo(s, e).Rejected? then s
    else
      match e
      case Run(setup, override) => State(RunQueued, ResolveRunMode(setup.model.value, override), s.hasInput)
      case GenerateInputs(setup, override) => State(InputsQueued, ResolveRunMode(setup.model.value, override), false)
      case GenerateAndRun(_) => State(InputsQueued, Some(V2), false)
      case CancelRun => s.(status := RunCancelled, runMode := None)
      case CancelGenerate => s.(status := InputsCancelled, runMode := None)
      case CancelAny => s.(status := if s.status.Generating() then InputsCancelled else RunCancelled, runMode := None)
      case StatusNotice(notice) => if s.status.Cancelled() then s else s.(status := notice)
      case TaskFailure(failure, logsPending, retries) =>
        if (logsPending && retries < MAX_RETRIES) || s.status.Cancelled() || s.status.InputsNoKeys? then s
        else s.(status := failure)
      case RecordInputFiles(_) => s.(status := Ready, hasInput := true)
      case RecordLossesFiles => s.(status := RunCompleted)
  }

  function After(s: State, events: seq<Event>): State {
    if events == [] then s
    else Next(After(s, events[..|events| - 1]), events[|events| - 1])
  }

  // ---- properties over every run -------------------------------------------

  predicate IsStart(e: Event) { e.Run? || e.GenerateInputs? || e.GenerateAndRun? }
  predicate IsCancel(e: Event) { e.CancelRun? || e.CancelGenerate? || e.CancelAny? }
  predicate IsRecord(e: Event) { e.RecordInputFiles? || e.RecordLossesFiles? }

  /** Starts go through only while nothing runs, cancels only while something does; a start leaves the
      analysis queued, a cancel leaves it cancelled in the stage it was in. */
  lemma CommandsRespectActivity(s: State, e: Event)
    requires ReplyTo(s, e).Accepted?
    ensures IsStart(e) ==> !s.status.Active() && Next(s, e).status in {InputsQueued, RunQueued}
    ensures e.Run? ==> s.hasInput
    ensures IsCancel(e) ==> s.status.Active()
    ensures IsCancel(e) ==> Next(s, e).status == if s.status.Generating() then InputsCancelled else RunCancelled
  {
  }

  lemma StartRefusedWhileActive(s: State, e: Event)
    requires IsStart(e) && s.status.Active()
    ensures ReplyTo(s, e).Rejected?
  {
  }

  // ---- exactly when a start is accepted ------------------------------------

  /** The run mode a request comes to: its own, or else the model's. */
  ghost predicate HasMode(model: Model, override: Override, mode: RunMode) {
    override == Mode(mode) || (override == NoOverride && model.runMode == Some(mode))
  }

  /** The portfolio has what input generation in the mode needs: for V1 a location or accounts file; for V2
      a location file with rows, or none at all when the number of chunks is fixed. */
  predicate PortfolioFits(setup: Setup, mode: RunMode) {
    match mode
    case V1 => setup.location != NoFile || setup.hasAccounts
    case V2 =>
      match setup.location
      case NoFile => setup.chunking.lookupStrategy == FixedChunks
      case Unreadable => false
      case Rows(count) => count > 0
  }

  /** The settings files have what loss generation in the mode needs. */
  ghost predicate SettingsFit(setup: Setup, model: Model, mode: RunMode) {
    mode == V2 && setup.chunking.lossStrategy == DynamicChunks ==> model.hasSettings && EventsTold(setup.events)
  }

  lemma PortfolioFitsIff(setup: Setup, mode: RunMode)
    ensures PortfolioProblems(setup, mode) == {} <==> PortfolioFits(setup, mode)
  {
    assert "portfolio" in {"portfolio"};
  }

  lemma SettingsFitIff(setup: Setup, model: Model, mode: RunMode)
    ensures setup.hasSettings ==>
      (LossProblems(setup, model, mode) == {} && !EventsUnreadable(setup, mode) <==> SettingsFit(setup, model, mode))
  {
    EventsUsableIff(setup.events);
    assert "model_settings_file" in {"model_settings_file"};
  }

  lemma ModeIff(model: Model, override: Override, mode: RunMode)
    ensures ResolveRunMode(model, override) == Some(mode) <==> HasMode(model, override, mode)
  {
  }

  /** A run is accepted in a mode exactly when the model is there and not deleted, the request comes to that
      mode, input files and settings are there, the analysis is ready or done with a run, and the
      settings files fit the mode; it is then queued in that mode with its input files kept. */
  lemma RunAcceptedIff(s: State, setup: Setup, override: Override, mode: RunMode)
    ensures ReplyTo(s, Run(setup, override)).Accepted? && Next(s, Run(setup, override)).runMode == Some(mode)
       <==> setup.model.Some? && !setup.model.value.deleted && HasMode(setup.model.value, override, mode)
            && s.hasInput && setup.hasSettings && s.status in {Ready, RunCompleted, RunError, RunCancelled}
            && SettingsFit(setup, setup.model.value, mode)
    ensures ReplyTo(s, Run(setup, override)).Accepted? ==>
      Next(s, Run(setup, override)) == State(RunQueued, Next(s, Run(setup, override)).runMode, true)
  {
    if setup.model.Some? {
      var model := setup.model.value;
      ModeIff(model, override, mode);
      SettingsFitIff(setup, model, mode);
      NoRunErrors(setup, s, model, mode);
    }
  }

  lemma NoRunErrors(setup: Setup, s: State, model: Model, mode: RunMode)
    ensures RunErrors(setup, s, model, mode) == {}
       <==> !model.deleted && setup.hasSettings && s.hasInput && LossProblems(setup, model, mode) == {}
    ensures "model" in RunErrors(setup, s, model, mode) <== model.deleted
    ensures "input_file" in RunErrors(setup, s, model, mode) <== !s.hasInput
    ensures "analysis_settings_file" in RunErrors(setup, s, model, mode) <== !setup.hasSettings
  {
    assert LossProblems(setup, model, mode) <= RunErrors(setup, s, model, mode);
  }

  /** Input generation is accepted in a mode exactly when the model is there and not deleted, the request
      comes to that mode, nothing is queued or started, and the portfolio fits the mode; it is then
      queued in that mode, without input files. */
  lemma GenerateAcceptedIff(s: State, setup: Setup, override: Override, mode: RunMode)
    ensures ReplyTo(s, GenerateInputs(setup, override)).Accepted? && Next(s, GenerateInputs(setup, override)).runMode == Some(mode)
       <==> setup.model.Some? && !setup.model.value.deleted && HasMode(setup.model.value, override, mode)
            && s.status !in {InputsQueued, InputsStarted, RunQueued, RunStarted} && PortfolioFits(setup, mode)
    ensures ReplyTo(s, GenerateInputs(setup, override)).Accepted? ==>
      Next(s, GenerateInputs(setup, override)) == State(InputsQueued, Next(s, GenerateInputs(setup, override)).runMode, false)
  {
    if setup.model.Some? {
      ModeIff(setup.model.value, override, mode);
      PortfolioFitsIff(setup, mode);
      NoGenerateErrors(setup, s, setup.model.value, mode);
    }
  }

  lemma NoGenerateErrors(setup: Setup, s: State, model: Model, mode: RunMode)
    ensures GenerateErrors(setup, s, model, mode) == {}
       <==> !model.deleted && s.status.MayGenerate() && PortfolioProblems(setup, mode) == {}
    ensures "model" in GenerateErrors(setup, s, model, mode) <==> model.deleted
    ensures "status" in GenerateErrors(setup, s, model, mode) <==> s.status.Active()
    ensures "portfolio" in GenerateErrors(setup, s, model, mode) <==> !PortfolioFits(setup, mode)
  {
    PortfolioFitsIff(setup, mode);
    assert PortfolioProblems(setup, mode) <= GenerateErrors(setup, s, model, mode);
  }

  /** A joint run is accepted exactly when the model is there, not deleted and distributed, settings are
      there, nothing is queued or started, and portfolio and settings files fit. */
  lemma GenerateAndRunAcceptedIff(s: State, setup: Setup)
    ensures ReplyTo(s, GenerateAndRun(setup)).Accepted?
       <==> setup.model.Some? && !setup.model.value.deleted && setup.model.value.runMode == Some(V2) && setup.hasSettings
            && s.status !in {InputsQueued, InputsStarted, RunQueued, RunStarted} && PortfolioFits(setup, V2)
            && SettingsFit(setup, setup.model.value, V2)
    ensures ReplyTo(s, GenerateAndRun(setup)).Accepted? ==> Next(s, GenerateAndRun(setup)) == State(InputsQueued, Some(V2), false)
  {
    if setup.model.Some? {
      PortfolioFitsIff(setup, V2);
      SettingsFitIff(setup, setup.model.value, V2);
      NoGenerateErrors(setup, s, setup.model.value, V2);
      NoJointErrors(setup, s, setup.model.value);
    }
  }

  lemma NoJointErrors(setup: Setup, s: State, model: Model)
    ensures JointErrors(setup, s, model) == {}
       <==> GenerateErrors(setup, s, model, V2) == {} && model.runMode == Some(V2) && setup.hasSettings
            && LossProblems(setup, model, V2) == {}
  {
    assert GenerateErrors(setup, s, model, V2) <= JointErrors(setup, s, model);
    assert LossProblems(setup, model, V2) <= JointErrors(setup, s, model);
    assert "model" in {"model"} && "settings_file" in {"settings_file"};
    assert JointErrors(setup, s, model) == {} ==> "model" !in JointErrors(setup, s, model) && "settings_file" !in JointErrors(setup, s, model);
  }

  /** What a refused run complains about, once the model is there: the status first, then the mode, then
      whatever of model, settings and input files is in the way. */
  lemma RunRefusalNames(s: State, setup: Setup, override: Override, fields: set<string>)
    requires ReplyTo(s, Run(setup, override)) == Rejected(fields) && setup.model.Some?
    ensures var idle := s.status in {Ready, RunCompleted, RunError, RunCancelled};
      var resolved := override.Mode? || (override == NoOverride && setup.model.value.runMode.Some?);
      && (!idle ==> fields == {"status"})
      && (idle && !resolved ==> fields == {if override == NoOverride then "model" else "run_mode"})
      && (idle && resolved ==>
            ("input_file" in fields <==> !s.hasInput) && ("model" in fields <==> setup.model.value.deleted)
            && (!setup.hasSettings ==> "analysis_settings_file" in fields))
  {
    var model := setup.model.value;
    if ResolveRunMode(model, override).Some? {
      NoRunErrors(setup, s, model, ResolveRunMode(model, override).value);
    }
  }

  /** What a refused input generation complains about, once the model is there: the mode, or else whatever of
      status, model and portfolio is in the way. */
  lemma GenerateRefusalNames(s: State, setup: Setup, override: Override, fields: set<string>)
    requires ReplyTo(s, GenerateInputs(setup, override)) == Rejected(fields) && setup.model.Some?
    ensures if override == BadMode then fields == {"run_mode"}
            else if override == NoOverride && setup.model.value.runMode.None? then fields == {"model"}
            else
              ("status" in fields <==> s.status in {InputsQueued, InputsStarted, RunQueued, RunStarted})
              && ("model" in fields <==> setup.model.value.deleted)
              && ("portfolio" in fields <==> !PortfolioFits(setup, if override.Mode? then override.mode else setup.model.value.runMode.value))
  {
    var model := setup.model.value;
    if ResolveRunMode(model, override).Some? {
      NoGenerateErrors(setup, s, model, ResolveRunMode(model, override).value);
    }
  }

  /** What a refused joint run complains about, once the model is there, apart from what the settings files say
      of events. */
  lemma JointRefusalNames(s: State, setup: Setup, fields: set<string>)
    requires ReplyTo(s, GenerateAndRun(setup)) == Rejected(fields) && setup.model.Some?
    ensures "status" in fields <==> s.status in {InputsQueued, InputsStarted, RunQueued, RunStarted}
    ensures fields != {"events"} ==> ("portfolio" in fields <==> !PortfolioFits(setup, V2))
    ensures "settings_file" in fields <==> !setup.hasSettings
    ensures "model" in fields <==> setup.model.value.deleted || setup.model.value.runMode != Some(V2)
  {
    NoGenerateErrors(setup, s, setup.model.value, V2);
    JointErrorNames(setup, s, setup.model.value);
  }

  lemma JointErrorNames(setup: Setup, s: State, model: Model)
    ensures forall name :: name in {"status", "portfolio"} ==>
      (name in JointErrors(setup, s, model) <==> name in GenerateErrors(setup, s, model, V2))
    ensures "settings_file" in JointErrors(setup, s, model) <==> !setup.hasSettings
    ensures "model" in JointErrors(setup, s, model) <==> model.deleted || model.runMode != Some(V2)
  {
    LossProblemNames(setup, model);
    NoGenerateErrors(setup, s, model, V2);
    assert |"settings_file"| == 13 && |"model"| == 5 && |"status"| == 6 && |"portfolio"| == 9 && |"settings_files"| == 14
      && |"analysis_settings_file"| == 22 && |"model_settings_file"| == 19;
  }

  lemma LossProblemNames(setup: Setup, model: Model)
    ensures LossProblems(setup, model, V2) <= {"model_settings_file", "analysis_settings_file", "settings_files"}
  {
  }

  /** A failure callback is put off while logs are pending, up to eight times; then it writes its status unless
      the analysis was cancelled or had no keys, and changes nothing else. */
  lemma FailureIsWritten(s: State, failure: Status, logsPending: bool, retries: nat)
    ensures Next(s, TaskFailure(failure, logsPending, retries))
         == if (!logsPending || retries >= 8) && s.status !in {InputsCancelled, RunCancelled, InputsNoKeys}
            then s.(status := failure) else s
  {
  }

  /** An accepted cancel forgets the run mode and keeps the input files. */
  lemma CancelKeepsInput(s: State, cancel: Event)
    requires IsCancel(cancel) && ReplyTo(s, cancel).Accepted?
    ensures Next(s, cancel).runMode.None? && Next(s, cancel).hasInput == s.hasInput
  {
  }

  /** Cancels are accepted exactly in the stage they are for. */
  lemma CancelAcceptedIff(s: State, cancel: Event)
    requires IsCancel(cancel)
    ensures ReplyTo(s, cancel).Accepted?
       <==> s.status in if cancel.CancelRun? then {RunQueued, RunStarted}
                        else if cancel.CancelGenerate? then {InputsQueued, InputsStarted}
                        else {InputsQueued, InputsStarted, RunQueued, RunStarted}
  {
  }

  // ---- an accepted start can be laid out -----------------------------------

  function InputChain(setup: Setup): Option<seq<Step>> {
    var count := InputChunks(setup.chunking, LocationLines(setup.location));
    if count.Chunks? then InputSteps(count.n) else None
  }

  function LossChain(setup: Setup): Option<seq<Step>> {
    var count := LossChunks(setup.chunking, if setup.chunking.lossStrategy == DynamicChunks then NumEvents(setup.events) else None);
    if count.Chunks? then LossSteps(count.n) else None
  }

  predicate InputsPlannable(chunking: ChunkingOptions) {
    chunking.lookupStrategy == DynamicChunks || chunking.fixedLookupChunks.Some?
  }

  predicate LossesPlannable(setup: Setup) {
    if setup.chunking.lossStrategy == DynamicChunks then NumEvents(setup.events).GetOr(0) > 0
    else setup.chunking.fixedAnalysisChunks.Some?
  }

  lemma InputChainExists(setup: Setup)
    requires ValidOptions(setup.chunking) && LocationAccepted(setup.location, setup.chunking.lookupStrategy)
    ensures InputChain(setup).Some? <==> InputsPlannable(setup.chunking)
  {
  }

  lemma LossChainExists(setup: Setup)
    requires ValidOptions(setup.chunking)
    ensures LossChain(setup).Some? <==> LossesPlannable(setup)
  {
  }

  lemma AcceptedPortfolio(setup: Setup, s: State, e: Event)
    requires IsStart(e) && !e.Run? && e.setup == setup && ReplyTo(s, e).Accepted? && Next(s, e).runMode == Some(V2)
    ensures LocationAccepted(setup.location, setup.chunking.lookupStrategy)
  {
  }

  /** The chain of an accepted distributed start can be laid out exactly when its chunk counts are
      there: input generation needs a dynamic strategy or a fixed count, losses need a fixed count or
      a positive number of events. */
  lemma AcceptedStartHasChain(s: State, e: Event)
    requires IsStart(e) && ReplyTo(s, e).Accepted? && Next(s, e).runMode == Some(V2) && ValidOptions(e.setup.chunking)
    ensures !e.Run? ==> (InputChain(e.setup).Some? <==> InputsPlannable(e.setup.chunking))
    ensures !e.GenerateInputs? ==> (LossChain(e.setup).Some? <==> LossesPlannable(e.setup))
    ensures e.GenerateAndRun? && InputsPlannable(e.setup.chunking) && LossesPlannable(e.setup) ==>
      NoDuplicates(StatusSlugs(InputChain(e.setup).GetOr([]) + LossChain(e.setup).GetOr([])))
  {
    LossChainExists(e.setup);
    if !e.Run? {
      AcceptedPortfolio(e.setup, s, e);
      InputChainExists(e.setup);
      if InputChain(e.setup).Some? && LossChain(e.setup).Some? {
        SlugsAreDistinct(InputChunks(e.setup.chunking, LocationLines(e.setup.location)).n,
                         LossChunks(e.setup.chunking,
                                    if e.setup.chunking.lossStrategy == DynamicChunks then NumEvents(e.setup.events) else None).n);
      }
    }
  }

  /** Event `i` of the run is an accepted start command or the recording of a stage's files. */
  predicate Revives(s: State, events: seq<Event>, i: nat)
    requires i < |events|
  {
    IsRecord(events[i]) || (IsStart(events[i]) && ReplyTo(After(s, events[..i]), events[i]).Accepted?)
  }

  /** A cancelled analysis stays cancelled unless it is started again or a stage's files are recorded:
      no status notice and no failure callback moves it. */
  lemma {:induction false} CancelledStays(s: State, events: seq<Event>)
    requires s.status.Cancelled()
    ensures After(s, events).status == s.status || exists i :: 0 <= i < |events| && Revives(s, events, i)
  {
    if events != [] {
      var n := |events| - 1;
      var init := events[..n];
      CancelledStays(s, init);
      if After(s, init).status == s.status {
        if After(s, events).status != s.status {
          assert Revives(s, events, n);
        }
      } else {
        var i :| 0 <= i < n && Revives(s, init, i);
        assert init[..i] == events[..i] && init[i] == events[i];
        assert Revives(s, events, i);
      }
    }
  }

  /** Failure callbacks, however many and however late, never replace a no-keys result. */
  lemma {:induction false} NoKeysSurvivesFailures(s: State, events: seq<Event>)
    requires s.status.InputsNoKeys? && forall e :: e in events ==> e.TaskFailure?
    ensures After(s, events) == s
  {
    if events != [] {
      NoKeysSurvivesFailures(s, events[..|events| - 1]);
      assert events[|events| - 1] in events;
    }
  }

  /** The event cannot end the work in progress: a command that is refused, or a started notice, or a
      failure callback that is still waiting for logs. */
  predicate KeepsGoing(s: State, e: Event) {
    match e
    case StatusNotice(notice) => notice.Active()
    case TaskFailure(_, logsPending, retries) => logsPending && retries < MAX_RETRIES
    case RecordInputFiles(_) => false
    case RecordLossesFiles => false
    case _ => IsCancel(e) ==> ReplyTo(s, e).Rejected?
  }

  /** Until something ends the work in progress, every further start command is refused. */
  lemma {:induction false} OneStartAtATime(s: State, events: seq<Event>)
    requires s.status.Active()
    requires forall i :: 0 <= i < |events| ==> KeepsGoing(After(s, events[..i]), events[i])
    ensures After(s, events).status.Active()
    ensures forall e :: IsStart(e) ==> ReplyTo(After(s, events), e).Rejected?
  {
    if events != [] {
      var n := |events| - 1;
      assert forall i :: 0 <= i < n ==> events[..n][..i] == events[..i];
      OneStartAtATime(s, events[..n]);
      assert KeepsGoing(After(s, events[..n]), events[n]);
    }
    forall e | IsStart(e)
      ensures ReplyTo(After(s, events), e).Rejected?
    {
      StartRefusedWhileActive(After(s, events), e);
    }
  }

  /** `record_input_files` writes READY whatever finish status it is given. A joint run asks for
      RUN_STARTED, so its analysis counts as idle, open to a second start, while its losses are
      still to be generated. */
  lemma InputFilesIgnoreFinishStatus(s: State, finish: Status)
    ensures Next(s, RecordInputFiles(finish)).status == finish <==> finish == Ready
    ensures !Next(s, RecordInputFiles(finish)).status.Active()
  {
  }

  // ---- the analysis object -------------------------------------------------

  class Analysis {
    var status: Status
    var runMode: Option<RunMode>
    var hasInput: bool

    constructor ()
      ensures Current() == State(New, None, false)
    {
      status, runMode, hasInput := New, None, false;
    }

    function Current(): State
      reads this
    {
      State(status, runMode, hasInput)
    }

    method RunAnalysis(setup: Setup, override: Override) returns (reply: Reply)
      modifies this
      ensures reply == ReplyTo(old(Current()), Event.Run(setup, override))
      ensures Current() == Next(old(Current()), Event.Run(setup, override))
    {
      if setup.model.None? {
        return Rejected({"model"});
      }
      if !status.MayRun() {
        return Rejected({"status"});
      }
      var model := setup.model.value;
      var mode := ResolveRunMode(model, override);
      if mode.None? {
        return Rejected(if override == NoOverride then {"model"} else {"run_mode"});
      }
      var errors := {};
      if model.deleted { errors := errors + {"model"}; }
      if !setup.hasSettings { errors := errors + {"analysis_settings_file"}; }
      if !hasInput { errors := errors + {"input_file"}; }
      errors := errors + LossProblems(setup, model, mode.value);
      if errors != {} {
        return Rejected(errors);
      }
      if EventsUnreadable(setup, mode.value) {
        return Rejected({"events"});
      }
      status := RunQueued;
      runMode := mode;
      reply := Accepted;
    }

    method GenerateInputFiles(setup: Setup, override: Override) returns (reply: Reply)
      modifies this
      ensures reply == ReplyTo(old(Current()), Event.GenerateInputs(setup, override))
      ensures Current() == Next(old(Current()), Event.GenerateInputs(setup, override))
    {
      if setup.model.None? {
        return Rejected({"model"});
      }
      var model := setup.model.value;
      var mode := ResolveRunMode(model, override);
      if mode.None? {
        return Rejected(if override == NoOverride then {"model"} else {"run_mode"});
      }
      var errors := {};
      if !status.MayGenerate() { errors := errors + {"status"}; }
      if model.deleted { errors := errors + {"model"}; }
      errors := errors + PortfolioProblems(setup, mode.value);
      if errors != {} {
        return Rejected(errors);
      }
      ResetInputGeneration();
      runMode := mode;
      reply := Accepted;
    }

    method GenerateInputsAndRun(setup: Setup) returns (reply: Reply)
      modifies this
      ensures reply == ReplyTo(old(Current()), Event.GenerateAndRun(setup))
      ensures Current() == Next(old(Current()), Event.GenerateAndRun(setup))
    {
      if setup.model.None? {
        return Rejected({"model"});
      }
      var model := setup.model.value;
      var errors := JointProblems(setup, model);
      if errors != {} {
        return Rejected(errors);
      }
      if EventsUnreadable(setup, V2) {
        return Rejected({"events"});
      }
      ResetInputGeneration();
      runMode := Some(V2);
      reply := Accepted;
    }

    /** The `errors` a joint start collects. */
    method JointProblems(setup: Setup, model: Model) returns (errors: set<string>)
      ensures errors == JointErrors(setup, Current(), model)
    {
      errors := {};
      if !status.MayGenerate() { errors := errors + {"status"}; }
      if model.deleted { errors := errors + {"model"}; }
      if model.runMode != Some(V2) { errors := errors + {"model"}; }
      if !setup.hasSettings { errors := errors + {"settings_file"}; }
      errors := errors + PortfolioProblems(setup, V2) + LossProblems(setup, model, V2);
    }

    method ResetInputGeneration()
      modifies this
      ensures Current() == old(Current()).(status := InputsQueued, hasInput := false)
    {
      status := InputsQueued;
      hasInput := false;
    }

    method CancelAnalysisRun() returns (reply: Reply)
      modifies this
      ensures reply == ReplyTo(old(Current()), Event.CancelRun)
      ensures Current() == Next(old(Current()), Event.CancelRun)
    {
      if !status.Running() {
        return Rejected({"status"});
      }
      status := RunCancelled;
      runMode := None;
      reply := Accepted;
    }

    method CancelGenerateInputs() returns (reply: Reply)
      modifies this
      ensures reply == ReplyTo(old(Current()), Event.CancelGenerate)
      ensures Current() == Next(old(Current()), Event.CancelGenerate)
    {
      if !status.Generating() {
        return Rejected({"status"});
      }
      status := InputsCancelled;
      runMode := None;
      reply := Accepted;
    }

    /** Cancels whichever stage is active; the status is looked at again after the first cancel. */
    method CancelAnyStage() returns (reply: Reply)
      modifies this
      ensures reply == ReplyTo(old(Current()), Event.CancelAny)
      ensures Current() == Next(old(Current()), Event.CancelAny)
    {
      if !status.Active() {
        return Rejected({"status"});
      }
      reply := Accepted;
      if status.Generating() {
        reply := CancelGenerateInputs();
      }
      if status.Running() {
        reply := CancelAnalysisRun();
      }
    }

    method SetTaskStatus(notice: Status)
      modifies this
      ensures Current() == Next(old(Current()), StatusNotice(notice))
    {
      if !status.Cancelled() {
        status := notice;
      }
    }

    /** `handle_task_failure`: asks to be retried while sub-task logs are still on their way. */
    method HandleTaskFailure(failure: Status, logsPending: bool, retries: nat) returns (retry: bool)
      modifies this
      ensures retry <==> logsPending && retries < 8
      ensures Current() == Next(old(Current()), TaskFailure(failure, logsPending, retries))
    {
      retry := logsPending && retries < MAX_RETRIES;
      if !retry && status !in {InputsCancelled, RunCancelled, InputsNoKeys} {
        status := failure;
      }
    }

    method RecordInput(finish: Status)
      modifies this
      ensures Current() == Next(old(Current()), Event.RecordInputFiles(finish))
    {
      status := Ready;
      hasInput := true;
    }

    method RecordLosses()
      modifies this
      ensures Current() == Next(old(Current()), Event.RecordLossesFiles)
    {
      status := RunCompleted;
    }
  }
}
