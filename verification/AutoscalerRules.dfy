/** How many workers a deployment should have: kubernetes/worker-controller/src/autoscaler_rules.py. */
module AutoscalerRules {
  import opened Arithmetic
  import opened Options

  /** A model's auto scaling configuration, as the API returns it. */
  datatype Settings = Settings(
    strategy: Option<string>,
    workersMin: nat,
    workersMax: Option<nat>,
    workersFixed: Option<nat>,
    chunksPerWorker: Option<nat>)

  /** `ModelState`: what is queued for one model. */
  datatype Load = Load(tasks: nat, analyses: nat, priority: int)

  const NO_LOAD := Load(0, 0, 1)

  /** A count, the `ValueError` for unusable settings, or any other exception. */
  datatype Desired = Workers(n: nat) | BadSettings | Crash

  /** `get_req_setting`: a missing or zero setting counts as missing. */
  function Required(setting: Option<nat>): Option<nat> {
    if setting.GetOr(0) == 0 then None else setting
  }

  const FIXED_WORKERS := "FIXED_WORKERS"
  const QUEUE_LOAD := "QUEUE_LOAD"
  const DYNAMIC_TASKS := "DYNAMIC_TASKS"

  function Fixed(settings: Settings): Desired {
    var count := Required(settings.workersFixed);
    if count.None? then BadSettings else Workers(Max(count.value, settings.workersMin))
  }

  function DesiredWorkers(settings: Settings, load: Load, neverShutdownFixed: bool): Desired {
    var strategy := settings.strategy.GetOr("");
    var most := Required(settings.workersMax);
    if strategy == "" then BadSettings
    else if strategy in {QUEUE_LOAD, DYNAMIC_TASKS} && most.None? then BadSettings
    else if strategy == FIXED_WORKERS && neverShutdownFixed then Fixed(settings)
    else if load.tasks == 0 && load.analyses == 0 then Workers(settings.workersMin)
    else if strategy == FIXED_WORKERS then Fixed(settings)
    else if strategy == QUEUE_LOAD then Workers(Max(Min(load.analyses, most.value), settings.workersMin))
    else if strategy == DYNAMIC_TASKS then
      if settings.chunksPerWorker.GetOr(0) == 0 then Crash
      else Workers(Max(Min(CeilDiv(load.tasks, settings.chunksPerWorker.value), most.value), settings.workersMin))
    else BadSettings
  }

  /** The dynamic count covers all queued tasks unless the maximum stops it, and no smaller count
      above the minimum would. */
  lemma DynamicCountIsLeast(settings: Settings, load: Load, neverShutdownFixed: bool, n: nat)
    requires settings.strategy == Some(DYNAMIC_TASKS)
    requires DesiredWorkers(settings, load, neverShutdownFixed) == Workers(n) && (load.tasks > 0 || load.analyses > 0)
    ensures settings.workersMin <= n <= Max(settings.workersMax.GetOr(0), settings.workersMin)
    ensures load.tasks <= n * settings.chunksPerWorker.GetOr(0) || n >= settings.workersMax.GetOr(0)
    ensures forall m: nat :: settings.workersMin <= m < n ==> m * settings.chunksPerWorker.GetOr(0) < load.tasks
  {
  }

  /** A queue-load model gets one worker per analysis, as far as the minimum and maximum let it. */
  lemma QueueLoadFollowsAnalyses(settings: Settings, load: Load, neverShutdownFixed: bool, n: nat)
    requires settings.strategy == Some(QUEUE_LOAD)
    requires DesiredWorkers(settings, load, neverShutdownFixed) == Workers(n) && (load.tasks > 0 || load.analyses > 0)
    ensures settings.workersMin <= n <= Max(settings.workersMax.GetOr(0), settings.workersMin)
    ensures n < load.analyses ==> n >= settings.workersMax.GetOr(0)
    ensures n > load.analyses ==> n == settings.workersMin
  {
  }

  /** When the rules answer with a count, when they find the settings unusable, and when they break: a known
      strategy needs its own setting - the dynamic ones a maximum, in any case; the fixed one its count
      and the dynamic tasks their chunks per worker, unless the model is idle. Any other strategy will do
      while the model is idle. */
  lemma AnswersWhen(settings: Settings, load: Load, neverShutdownFixed: bool)
    ensures var strategy := settings.strategy.GetOr("");
      var idle := load.tasks == 0 && load.analyses == 0;
      match DesiredWorkers(settings, load, neverShutdownFixed)
      case Workers(_) =>
        if strategy == "FIXED_WORKERS" then (idle && !neverShutdownFixed) || settings.workersFixed.GetOr(0) > 0
        else if strategy == "QUEUE_LOAD" then settings.workersMax.GetOr(0) > 0
        else if strategy == "DYNAMIC_TASKS" then
          settings.workersMax.GetOr(0) > 0 && (idle || settings.chunksPerWorker.GetOr(0) > 0)
        else idle && strategy != ""
      case Crash =>
        strategy == "DYNAMIC_TASKS" && settings.workersMax.GetOr(0) > 0 && !idle && settings.chunksPerWorker.GetOr(0) == 0
      case BadSettings =>
        if strategy == "FIXED_WORKERS" then (!idle || neverShutdownFixed) && settings.workersFixed.GetOr(0) == 0
        else if strategy == "QUEUE_LOAD" || strategy == "DYNAMIC_TASKS" then settings.workersMax.GetOr(0) == 0
        else !idle || strategy == ""
  {
    assert |"FIXED_WORKERS"| == 13 && |"QUEUE_LOAD"| == 10 && "DYNAMIC_TASKS"[0] == 'D' && "FIXED_WORKERS"[0] == 'F';
  }

  /** A fixed model under load has its number of workers, or the minimum if that is more. */
  lemma FixedCountUnderLoad(settings: Settings, load: Load, neverShutdownFixed: bool, n: nat)
    requires settings.strategy == Some(FIXED_WORKERS)
    requires DesiredWorkers(settings, load, neverShutdownFixed) == Workers(n) && (load.tasks > 0 || load.analyses > 0)
    ensures n >= settings.workersFixed.GetOr(0) && n >= settings.workersMin
    ensures n == settings.workersFixed.GetOr(0) || n == settings.workersMin
  {
  }

  /** Without load a model falls back to its minimum; only a fixed one told never to shut down keeps
      the number of workers it has under load. */
  lemma IdleModelsKeepMinimum(settings: Settings, load: Load, neverShutdownFixed: bool, n: nat)
    requires DesiredWorkers(settings, NO_LOAD, neverShutdownFixed) == Workers(n)
    ensures if settings.strategy == Some(FIXED_WORKERS) && neverShutdownFixed
            then DesiredWorkers(settings, load, neverShutdownFixed) == Workers(n)
              && n == Max(settings.workersFixed.GetOr(0), settings.workersMin)
            else n == settings.workersMin
  {
  }

  /** More load never means fewer workers. */
  lemma DesiredIsMonotone(settings: Settings, load: Load, more: Load, neverShutdownFixed: bool, n: nat, m: nat)
    requires load.tasks <= more.tasks && load.analyses <= more.analyses
    requires DesiredWorkers(settings, load, neverShutdownFixed) == Workers(n)
    requires DesiredWorkers(settings, more, neverShutdownFixed) == Workers(m)
    ensures settings.workersMin <= n <= m
  {
  }
}
