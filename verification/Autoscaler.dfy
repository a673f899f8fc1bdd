/** Scaling worker deployments under a global limit, with delayed shutdown:
    kubernetes/worker-controller/src/autoscaler.py. The events that drive it, scaling decisions and
    timer fires, are atomic; commands to the cluster are recorded in the order they are issued. */
module Autoscaler {
  import opened Arithmetic
  import opened Options
  import opened AutoscalerRules
  import opened WorkerDeployments

  datatype Command = Scale(name: string, replicas: int) | Shutdown(names: set<string>)

  /** The pending shutdowns with their timer. `live` are the timers the event loop will still fire;
      `last` remembers each deployment's most recent scaling decision. */
  datatype Scaler = Scaler(
    cleanup: set<string>,
    timer: Option<nat>,
    live: set<nat>,
    nextTimer: nat,
    commands: seq<Command>,
    last: map<string, int>)

  // ---- decisions and timer -------------------------------------------------

  function CancelTimer(s: Scaler): Scaler {
    if s.timer.None? then s else s.(timer := None, live := s.live - {s.timer.value})
  }

  function StartTimer(s: Scaler): Scaler {
    s.(timer := Some(s.nextTimer), live := s.live + {s.nextTimer}, nextTimer := s.nextTimer + 1)
  }

  /** Acting on the decision that `name`, now at `replicas`, should have `desired` workers. */
  function Decide(s: Scaler, name: string, replicas: nat, desired: int): Scaler {
    var kept := s.(cleanup := if desired > 0 then s.cleanup - {name} else s.cleanup, last := s.last[name := desired]);
    if replicas == desired then kept
    else if desired > 0 then kept.(commands := kept.commands + [Scale(name, desired)])
    else StartTimer(CancelTimer(kept).(cleanup := kept.cleanup + {name}))
  }

  /** What the decision adds to the pass' worker total: a deployment awaiting shutdown still counts. */
  function Counted(replicas: nat, desired: int): int {
    if replicas != desired && desired <= 0 then replicas else desired
  }

  function Fire(s: Scaler, timer: nat): Scaler {
    var fired := s.(live := s.live - {timer});
    if s.cleanup == {} then fired
    else fired.(commands := s.commands + [Shutdown(s.cleanup)], cleanup := {})
  }

  datatype Event = Decided(name: string, replicas: nat, desired: int) | Fired(timer: nat)

  /** Only a live timer fires. Deployment updates do not touch the scaler. */
  function Step(s: Scaler, e: Event): Scaler {
    match e
    case Decided(name, replicas, desired) => Decide(s, name, replicas, desired)
    case Fired(timer) => if timer in s.live then Fire(s, timer) else s
  }

  function Steps(s: Scaler, events: seq<Event>): Scaler {
    if events == [] then s else Step(Steps(s, events[..|events| - 1]), events[|events| - 1])
  }

  const IDLE := Scaler({}, None, {}, 0, [], map[])

  /** A pending shutdown has a live timer, no other timer is live, and only deployments last decided to
      have no workers are pending. */
  predicate Sound(s: Scaler) {
    && (s.cleanup != {} ==> s.timer.Some? && s.timer.value in s.live)
    && (forall t :: t in s.live ==> t < s.nextTimer && s.timer == Some(t))
    && (s.timer.Some? ==> s.timer.value < s.nextTimer)
    && (forall name :: name in s.cleanup ==> name in s.last && s.last[name] <= 0)
  }

  lemma StepSound(s: Scaler, e: Event)
    requires Sound(s)
    ensures Sound(Step(s, e))
  {
  }

  /** In every reachable state a pending shutdown has exactly one live timer, and every name pending was
      last decided to have no workers. */
  lemma {:induction false} ReachableIsSound(events: seq<Event>)
    ensures Sound(Steps(IDLE, events))
    ensures Steps(IDLE, events).cleanup != {} ==> Steps(IDLE, events).live == {Steps(IDLE, events).timer.GetOr(0)}
  {
    if events != [] {
      ReachableIsSound(events[..|events| - 1]);
      StepSound(Steps(IDLE, events[..|events| - 1]), events[|events| - 1]);
    }
  }

  /** The number of workers a deployment was decided to have by the last event that decided on it. */
  function LastDecided(events: seq<Event>, name: string): Option<int> {
    if events == [] then None
    else
      var e := events[|events| - 1];
      if e.Decided? && e.name == name then Some(e.desired) else LastDecided(events[..|events| - 1], name)
  }

  lemma {:induction false} LastIsLastDecided(events: seq<Event>, name: string)
    ensures LastDecided(events, name)
         == var last := Steps(IDLE, events).last; if name in last then Some(last[name]) else None
  {
    if events != [] {
      LastIsLastDecided(events[..|events| - 1], name);
    }
  }

  /** A shutdown command, whenever it comes, names only deployments whose most recent decision was
      non-positive. */
  lemma ShutdownsAreSafe(events: seq<Event>, e: Event, names: set<string>)
    requires Step(Steps(IDLE, events), e).commands == Steps(IDLE, events).commands + [Shutdown(names)]
    ensures e.Fired? && names == Steps(IDLE, events).cleanup
    ensures forall name :: name in names ==> LastDecided(events, name).GetOr(1) <= 0
  {
    ReachableIsSound(events);
    var s := Steps(IDLE, events);
    assert Step(s, e).commands[|s.commands|] == Shutdown(names);
    assert Step(s, e).commands != s.commands;
    forall name { LastIsLastDecided(events, name); }
  }

  predicate ShutsDown(command: Command, name: string) {
    command.Shutdown? && name in command.names
  }

  /** A positive decision withdraws the pending shutdown: none is issued for the deployment until it is
      decided again to have no workers. */
  lemma {:induction false} PositiveDecisionWithdraws(s: Scaler, name: string, replicas: nat, desired: int, events: seq<Event>)
    requires desired > 0
    requires forall e :: e in events && e.Decided? && e.name == name ==> e.desired > 0
    ensures name !in Steps(Decide(s, name, replicas, desired), events).cleanup
    ensures |s.commands| <= |Steps(Decide(s, name, replicas, desired), events).commands|
    ensures forall i :: |s.commands| <= i < |Steps(Decide(s, name, replicas, desired), events).commands| ==>
      !ShutsDown(Steps(Decide(s, name, replicas, desired), events).commands[i], name)
  {
    if events != [] {
      PositiveDecisionWithdraws(s, name, replicas, desired, events[..|events| - 1]);
      assert events[|events| - 1] in events;
    }
  }

  // ---- what the cluster is left with ---------------------------------------

  /** Replicas the cluster holds for a deployment after the commands, `initial` before the first. */
  function Held(commands: seq<Command>, name: string, initial: int): int {
    if commands == [] then initial
    else
      match commands[|commands| - 1]
      case Scale(scaled, replicas) => if scaled == name then replicas else Held(commands[..|commands| - 1], name, initial)
      case Shutdown(names) => if name in names then 0 else Held(commands[..|commands| - 1], name, initial)
  }

  lemma HeldSnoc(commands: seq<Command>, command: Command, name: string, initial: int)
    ensures Held(commands + [command], name, initial)
         == match command
            case Scale(scaled, replicas) => if scaled == name then replicas else Held(commands, name, initial)
            case Shutdown(names) => if name in names then 0 else Held(commands, name, initial)
  {
    assert (commands + [command])[..|commands|] == commands;
  }

  /** After a positive decision made at the replicas the cluster holds, it holds the number decided on.
      A non-positive one leaves the cluster alone, and puts the deployment down for shutdown unless it
      is at that number already. Other deployments are not concerned. */
  lemma DecisionIsHeld(s: Scaler, name: string, replicas: nat, desired: int, other: string, initial: int)
    ensures desired > 0 && Held(s.commands, name, initial) == replicas ==>
      Held(Decide(s, name, replicas, desired).commands, name, initial) == desired
    ensures desired <= 0 ==> Decide(s, name, replicas, desired).commands == s.commands
    ensures desired <= 0 ==>
      (name in Decide(s, name, replicas, desired).cleanup <==> name in s.cleanup || replicas != desired)
    ensures other != name ==>
      Held(Decide(s, name, replicas, desired).commands, other, initial) == Held(s.commands, other, initial)
      && (other in Decide(s, name, replicas, desired).cleanup <==> other in s.cleanup)
  {
    HeldSnoc(s.commands, Scale(name, desired), name, initial);
    HeldSnoc(s.commands, Scale(name, desired), other, initial);
  }

  /** A live timer that fires takes every pending deployment to zero and leaves the others alone. */
  lemma FiringIsHeld(s: Scaler, timer: nat, name: string, initial: int)
    requires timer in s.live
    ensures Held(Step(s, Fired(timer)).commands, name, initial)
         == if name in s.cleanup then 0 else Held(s.commands, name, initial)
    ensures Step(s, Fired(timer)).cleanup == {}
  {
    HeldSnoc(s.commands, Shutdown(s.cleanup), name, initial);
  }

  /** A deployment decided to have no workers stays pending until it is shut down or decided again to
      have some; and a timer is live all the while. */
  lemma {:induction false} PendingUntilShutDown(s: Scaler, name: string, events: seq<Event>, initial: int)
    requires Sound(s) && name in s.cleanup
    requires forall e :: e in events && e.Decided? && e.name == name ==> e.desired <= 0
    ensures var after := Steps(s, events);
      || (name in after.cleanup && after.timer.Some? && after.timer.value in after.live)
      || Held(after.commands, name, initial) == 0
    ensures Sound(Steps(s, events))
  {
    if events != [] {
      var init, e := events[..|events| - 1], events[|events| - 1];
      assert e in events;
      PendingUntilShutDown(s, name, init, initial);
      var before := Steps(s, init);
      StepSound(before, e);
      match e
      case Decided(decided, replicas, desired) => DecisionIsHeld(before, decided, replicas, desired, name, initial);
      case Fired(timer) =>
        if timer in before.live { FiringIsHeld(before, timer, name, initial); }
    }
  }

  // ---- one scaling pass ----------------------------------------------------

  /** A model with its load and its deployment, given by reference: two models can share one. */
  datatype Entry<K> = Entry(queue: string, load: Load, wd: K)

  datatype Config = Config(limit: Option<int>, continueUpdate: bool, neverShutdownFixed: bool)

  /** The platform's answers during a pass. */
  datatype Api = Api(modelId: (string, string, string) -> Option<nat>, scaling: nat -> Option<Settings>)

  /** Settings are fetched again unless they are there, workers run, and nothing asks for updates. */
  function Refreshed(d: Deployment, config: Config, api: Api): Deployment {
    if d.scaling.Some? && d.replicas != 0 && !config.continueUpdate && d.scaling.value.workersMin == 0 then d
    else
      var known := if d.modelId.None? then d.(modelId := api.modelId(d.supplier, d.model, d.version)) else d;
      if known.modelId.Some? then known.(scaling := api.scaling(known.modelId.value)) else known
  }

  /** What is left of the limit, if there is one; it may be negative. */
  function Allowance(config: Config, total: int): Option<int> {
    if config.limit.GetOr(0) == 0 then None else Some(config.limit.value - total)
  }

  /** The number of workers decided on; `None` for an exception that ends the pass. */
  function Target(settings: Settings, load: Load, config: Config, allowance: Option<int>): Option<int> {
    match DesiredWorkers(settings, load, config.neverShutdownFixed)
    case Workers(n) => Some(if allowance.Some? && n > allowance.value then allowance.value else n)
    case BadSettings => Some(0)
    case Crash => None
  }

  datatype Pass<K> = Pass(wds: map<K, Deployment>, scaler: Scaler, total: int, targets: seq<int>, crashed: bool)

  /** What else happens while a pass waits for the platform: a deployment's replicas are updated, or a
      timer is due. */
  datatype Outside<K> = Replicas(wd: K, n: nat) | Due(timer: nat)

  /** One turn of a pass, with what happens before it and between its loading settings and deciding. */
  datatype Turn<K> = Turn(entry: Entry<K>, before: seq<Outside<K>>, during: seq<Outside<K>>)

  function Happened<K>(p: Pass<K>, o: Outside<K>): (p': Pass<K>)
    ensures p'.wds.Keys == p.wds.Keys && p'.total == p.total && p'.targets == p.targets && p'.crashed == p.crashed
  {
    match o
    case Replicas(wd, n) =>
      if wd in p.wds then
        var wds := p.wds[wd := p.wds[wd].(replicas := n)];
        assert wds.Keys == p.wds.Keys;
        p.(wds := wds)
      else p
    case Due(timer) => p.(scaler := Step(p.scaler, Fired(timer)))
  }

  function AllHappened<K>(p: Pass<K>, os: seq<Outside<K>>): (p': Pass<K>)
    ensures p'.wds.Keys == p.wds.Keys && p'.total == p.total && p'.targets == p.targets && p'.crashed == p.crashed
  {
    if os == [] then p else Happened(AllHappened(p, os[..|os| - 1]), os[|os| - 1])
  }

  /** The decision of a turn. */
  function Scaled<K>(p: Pass<K>, entry: Entry<K>, config: Config): (p': Pass<K>)
    requires entry.wd in p.wds
    ensures p'.wds == p.wds
  {
    var d := p.wds[entry.wd];
    if d.scaling.None? then p
    else
      var target := Target(d.scaling.value, entry.load, config, Allowance(config, p.total));
      if target.None? then p.(crashed := true)
      else Pass(p.wds, Decide(p.scaler, d.name, d.replicas, target.value),
                p.total + Counted(d.replicas, target.value), p.targets + [target.value], p.crashed)
  }

  /** A turn without what happens before it. */
  function TurnTaken<K>(p: Pass<K>, turn: Turn<K>, config: Config, api: Api): (p': Pass<K>)
    requires turn.entry.wd in p.wds
    ensures p'.wds.Keys == p.wds.Keys
  {
    var d := p.wds[turn.entry.wd];
    if d.scaling.Some? && d.scaling.value.strategy.None? then p
    else
      var wds := p.wds[turn.entry.wd := Refreshed(d, config, api)];
      assert wds.Keys == p.wds.Keys;
      Scaled(AllHappened(p.(wds := wds), turn.during), turn.entry, config)
  }

  function PassStep<K>(p: Pass<K>, turn: Turn<K>, config: Config, api: Api): (p': Pass<K>)
    requires turn.entry.wd in p.wds
    ensures p'.wds.Keys == p.wds.Keys
  {
    if p.crashed then p else TurnTaken(AllHappened(p, turn.before), turn, config, api)
  }

  function RunPass<K>(start: Pass<K>, turns: seq<Turn<K>>, config: Config, api: Api): (p: Pass<K>)
    requires forall turn :: turn in turns ==> turn.entry.wd in start.wds
    ensures p.wds.Keys == start.wds.Keys
  {
    if turns == [] then start
    else
      assert turns[|turns| - 1] in turns;
      PassStep(RunPass(start, turns[..|turns| - 1], config, api), turns[|turns| - 1], config, api)
  }

  lemma {:induction false} StepsAppend(s: Scaler, a: seq<Event>, b: seq<Event>)
    ensures Steps(s, a + b) == Steps(Steps(s, a), b)
  {
    if b == [] {
      assert a + b == a;
    } else {
      StepsAppend(s, a, b[..|b| - 1]);
      assert (a + b)[..|a + b| - 1] == a + b[..|b| - 1];
    }
  }

  /** The numbers of workers a list of events decides on. */
  function DecidedTargets(events: seq<Event>): seq<int> {
    if events == [] then []
    else
      var e := events[|events| - 1];
      DecidedTargets(events[..|events| - 1]) + if e.Decided? then [e.desired] else []
  }

  /** The step from one state of the pass to another is the given events as far as the scaler goes. */
  ghost predicate ActsThrough<K>(p: Pass<K>, p': Pass<K>, events: seq<Event>) {
    p'.scaler == Steps(p.scaler, events) && p'.targets == p.targets + DecidedTargets(events)
  }

  lemma {:induction false} DecidedTargetsAppend(a: seq<Event>, b: seq<Event>)
    ensures DecidedTargets(a + b) == DecidedTargets(a) + DecidedTargets(b)
  {
    if b == [] {
      assert a + b == a;
    } else {
      DecidedTargetsAppend(a, b[..|b| - 1]);
      assert (a + b)[..|a + b| - 1] == a + b[..|b| - 1];
    }
  }

  lemma ActsThroughBoth<K>(p: Pass<K>, q: Pass<K>, r: Pass<K>, a: seq<Event>, b: seq<Event>)
    requires ActsThrough(p, q, a) && ActsThrough(q, r, b)
    ensures ActsThrough(p, r, a + b)
  {
    StepsAppend(p.scaler, a, b);
    DecidedTargetsAppend(a, b);
  }

  lemma OneEvent(s: Scaler, e: Event)
    ensures Steps(s, [e]) == Step(s, e)
    ensures DecidedTargets([e]) == if e.Decided? then [e.desired] else []
  {
    assert [e][..0] == [];
  }

  lemma {:induction false} OutsideActs<K>(p: Pass<K>, os: seq<Outside<K>>) returns (events: seq<Event>)
    ensures ActsThrough(p, AllHappened(p, os), events)
  {
    if os == [] {
      events := [];
    } else {
      var init, o := os[..|os| - 1], os[|os| - 1];
      events := OutsideActs(p, init);
      if o.Due? {
        OneEvent(AllHappened(p, init).scaler, Fired(o.timer));
        ActsThroughBoth(p, AllHappened(p, init), AllHappened(p, os), events, [Fired(o.timer)]);
        events := events + [Fired(o.timer)];
      }
    }
  }

  lemma ScaledActs<K>(p: Pass<K>, entry: Entry<K>, config: Config) returns (events: seq<Event>)
    requires entry.wd in p.wds
    ensures ActsThrough(p, Scaled(p, entry, config), events)
  {
    var p' := Scaled(p, entry, config);
    if p'.targets == p.targets {
      events := [];
    } else {
      var d := p.wds[entry.wd];
      events := [Decided(d.name, d.replicas, p'.targets[|p.targets|])];
      OneEvent(p.scaler, events[0]);
    }
  }

  lemma TurnActs<K>(p: Pass<K>, turn: Turn<K>, config: Config, api: Api) returns (events: seq<Event>)
    requires turn.entry.wd in p.wds
    ensures ActsThrough(p, TurnTaken(p, turn, config, api), events)
  {
    var d := p.wds[turn.entry.wd];
    if d.scaling.Some? && d.scaling.value.strategy.None? {
      events := [];
    } else {
      var q := p.(wds := p.wds[turn.entry.wd := Refreshed(d, config, api)]);
      var outside := OutsideActs(q, turn.during);
      var decisions := ScaledActs(AllHappened(q, turn.during), turn.entry, config);
      ActsThroughBoth(q, AllHappened(q, turn.during), TurnTaken(p, turn, config, api), outside, decisions);
      events := outside + decisions;
    }
  }

  /** A pass acts on the scaler only through its decisions, one for each target, and the timers due
      meanwhile. */
  lemma {:induction false} PassIsSteps<K>(start: Pass<K>, turns: seq<Turn<K>>, config: Config, api: Api)
    returns (events: seq<Event>)
    requires forall turn :: turn in turns ==> turn.entry.wd in start.wds
    ensures ActsThrough(start, RunPass(start, turns, config, api), events)
  {
    if turns == [] {
      events := [];
    } else {
      var init, turn := turns[..|turns| - 1], turns[|turns| - 1];
      events := PassIsSteps(start, init, config, api);
      var p := RunPass(start, init, config, api);
      assert turn in turns;
      if !p.crashed {
        var before := OutsideActs(p, turn.before);
        var taken := TurnActs(AllHappened(p, turn.before), turn, config, api);
        ActsThroughBoth(p, AllHappened(p, turn.before), PassStep(p, turn, config, api), before, taken);
        ActsThroughBoth(start, p, PassStep(p, turn, config, api), events, before + taken);
        events := events + (before + taken);
      }
    }
  }

  function SumPositive(targets: seq<int>): nat {
    if targets == [] then 0
    else SumPositive(targets[..|targets| - 1]) + Max(targets[|targets| - 1], 0)
  }

  /** So far the pass keeps to the limit: the positive targets add up to no more than the limit, nor
      than the total. */
  predicate WithinLimit<K>(p: Pass<K>, limit: int) {
    SumPositive(p.targets) <= limit && SumPositive(p.targets) <= p.total
  }

  lemma ScaledWithinLimit<K>(p: Pass<K>, entry: Entry<K>, config: Config)
    requires entry.wd in p.wds && config.limit.Some? && config.limit.value > 0 && WithinLimit(p, config.limit.value)
    ensures WithinLimit(Scaled(p, entry, config), config.limit.value)
    ensures p.total <= Scaled(p, entry, config).total
  {
    var d := p.wds[entry.wd];
    if d.scaling.Some? {
      var target := Target(d.scaling.value, entry.load, config, Allowance(config, p.total));
      if target.Some? {
        SumPositiveSnoc(p.targets, target.value);
      }
    }
  }

  lemma SumPositiveSnoc(targets: seq<int>, target: int)
    ensures SumPositive(targets + [target]) == SumPositive(targets) + Max(target, 0)
  {
    assert (targets + [target])[..|targets|] == targets;
  }

  lemma StepWithinLimit<K>(p: Pass<K>, turn: Turn<K>, config: Config, api: Api)
    requires turn.entry.wd in p.wds && config.limit.Some? && config.limit.value > 0 && WithinLimit(p, config.limit.value)
    ensures WithinLimit(PassStep(p, turn, config, api), config.limit.value)
    ensures p.total <= PassStep(p, turn, config, api).total
  {
    if !p.crashed {
      var q := AllHappened(p, turn.before);
      var wds := q.wds[turn.entry.wd := Refreshed(q.wds[turn.entry.wd], config, api)];
      ScaledWithinLimit(AllHappened(q.(wds := wds), turn.during), turn.entry, config);
    }
  }

  /** The global limit holds in every pass, whatever is updated and whichever timers fire meanwhile: the
      running total never drops, and the worker counts the pass asks for add up to at most the limit,
      even once deployments awaiting shutdown have pushed the total beyond it. */
  lemma {:induction false} LimitHolds<K>(start: Pass<K>, turns: seq<Turn<K>>, config: Config, api: Api)
    requires forall turn :: turn in turns ==> turn.entry.wd in start.wds
    requires config.limit.Some? && config.limit.value > 0 && start.total == 0 && start.targets == []
    ensures WithinLimit(RunPass(start, turns, config, api), config.limit.value)
    ensures forall i :: 0 <= i <= |turns| ==>
      RunPass(start, turns[..i], config, api).total <= RunPass(start, turns, config, api).total
  {
    if turns == [] {
      assert turns[..0] == turns;
    } else {
      var init := turns[..|turns| - 1];
      LimitHolds(start, init, config, api);
      assert turns[|turns| - 1] in turns;
      StepWithinLimit(RunPass(start, init, config, api), turns[|turns| - 1], config, api);
      PrefixTotals(start, turns, config, api);
    }
  }

  lemma PrefixTotals<K>(start: Pass<K>, turns: seq<Turn<K>>, config: Config, api: Api)
    requires turns != [] && forall turn :: turn in turns ==> turn.entry.wd in start.wds
    requires var init := turns[..|turns| - 1];
      RunPass(start, init, config, api).total <= RunPass(start, turns, config, api).total
      && forall i :: 0 <= i <= |init| ==> RunPass(start, init[..i], config, api).total <= RunPass(start, init, config, api).total
    ensures forall i :: 0 <= i <= |turns| ==>
      RunPass(start, turns[..i], config, api).total <= RunPass(start, turns, config, api).total
  {
    var init := turns[..|turns| - 1];
    forall i | 0 <= i <= |turns|
      ensures RunPass(start, turns[..i], config, api).total <= RunPass(start, turns, config, api).total
    {
      if i == |turns| {
        assert turns[..i] == turns;
      } else {
        assert turns[..i] == init[..i];
      }
    }
  }

  /** Replicas the `Scale` commands ask for, all in all. */
  function ScaleSum(commands: seq<Command>): int {
    if commands == [] then 0
    else
      var last := commands[|commands| - 1];
      ScaleSum(commands[..|commands| - 1]) + if last.Scale? then last.replicas else 0
  }

  lemma {:induction false} ScaleSumAppend(a: seq<Command>, b: seq<Command>)
    ensures ScaleSum(a + b) == ScaleSum(a) + ScaleSum(b)
  {
    if b == [] {
      assert a + b == a;
    } else {
      ScaleSumAppend(a, b[..|b| - 1]);
      assert (a + b)[..|a + b| - 1] == a + b[..|b| - 1];
    }
  }

  lemma ScaleSumSnoc(commands: seq<Command>, command: Command)
    ensures ScaleSum(commands + [command]) == ScaleSum(commands) + if command.Scale? then command.replicas else 0
  {
    assert (commands + [command])[..|commands|] == commands;
  }

  /** The commands only grew, and what was asked for is covered by the targets. */
  ghost predicate AskedWithin<K>(p: Pass<K>, p': Pass<K>) {
    && p.scaler.commands <= p'.scaler.commands
    && ScaleSum(p'.scaler.commands) - ScaleSum(p.scaler.commands) <= SumPositive(p'.targets) - SumPositive(p.targets)
  }

  lemma HappenedAsks<K>(p: Pass<K>, o: Outside<K>)
    ensures AskedWithin(p, Happened(p, o))
  {
    ScaleSumSnoc(p.scaler.commands, Shutdown(p.scaler.cleanup));
  }

  lemma {:induction false} OutsideAsks<K>(p: Pass<K>, os: seq<Outside<K>>)
    ensures AskedWithin(p, AllHappened(p, os))
  {
    if os != [] {
      OutsideAsks(p, os[..|os| - 1]);
      HappenedAsks(AllHappened(p, os[..|os| - 1]), os[|os| - 1]);
    }
  }

  lemma DecideAsks(s: Scaler, name: string, replicas: nat, desired: int)
    ensures s.commands <= Decide(s, name, replicas, desired).commands
    ensures ScaleSum(Decide(s, name, replicas, desired).commands) - ScaleSum(s.commands) <= Max(desired, 0)
  {
    ScaleSumSnoc(s.commands, Scale(name, desired));
  }

  lemma ScaledAsks<K>(p: Pass<K>, entry: Entry<K>, config: Config)
    requires entry.wd in p.wds
    ensures AskedWithin(p, Scaled(p, entry, config))
  {
    var d := p.wds[entry.wd];
    if d.scaling.Some? {
      var target := Target(d.scaling.value, entry.load, config, Allowance(config, p.total));
      if target.Some? {
        SumPositiveSnoc(p.targets, target.value);
        DecideAsks(p.scaler, d.name, d.replicas, target.value);
      }
    }
  }

  lemma StepAsks<K>(p: Pass<K>, turn: Turn<K>, config: Config, api: Api)
    requires turn.entry.wd in p.wds
    ensures AskedWithin(p, PassStep(p, turn, config, api))
  {
    if !p.crashed {
      OutsideAsks(p, turn.before);
      var q := AllHappened(p, turn.before);
      var loaded := q.(wds := q.wds[turn.entry.wd := Refreshed(q.wds[turn.entry.wd], config, api)]);
      OutsideAsks(loaded, turn.during);
      ScaledAsks(AllHappened(loaded, turn.during), turn.entry, config);
    }
  }

  lemma {:induction false} PassAsks<K>(start: Pass<K>, turns: seq<Turn<K>>, config: Config, api: Api)
    requires forall turn :: turn in turns ==> turn.entry.wd in start.wds
    ensures AskedWithin(start, RunPass(start, turns, config, api))
  {
    if turns != [] {
      assert turns[|turns| - 1] in turns;
      PassAsks(start, turns[..|turns| - 1], config, api);
      StepAsks(RunPass(start, turns[..|turns| - 1], config, api), turns[|turns| - 1], config, api);
    }
  }

  /** What a pass sends keeps to the limit: the replicas of the `Scale` commands it adds come to no more. */
  lemma CommandsWithinLimit<K>(start: Pass<K>, turns: seq<Turn<K>>, config: Config, api: Api)
    requires forall turn :: turn in turns ==> turn.entry.wd in start.wds
    requires config.limit.Some? && config.limit.value > 0 && start.total == 0 && start.targets == []
    ensures var sent := RunPass(start, turns, config, api).scaler.commands;
      start.scaler.commands <= sent && ScaleSum(sent[|start.scaler.commands|..]) <= config.limit.value
  {
    LimitHolds(start, turns, config, api);
    PassAsks(start, turns, config, api);
    var before, sent := start.scaler.commands, RunPass(start, turns, config, api).scaler.commands;
    assert sent == before + sent[|before|..];
    ScaleSumAppend(before, sent[|before|..]);
  }

  // ---- what a turn decides -------------------------------------------------

  /** A turn asks for what the rules say as far as the limit goes, which is used up but not exceeded, and
      for nothing when the settings are unusable. A deployment left to its pending shutdown still
      counts with its replicas. */
  lemma TurnTakesWhatIsLeft<K>(p: Pass<K>, entry: Entry<K>, config: Config)
    requires entry.wd in p.wds && p.wds[entry.wd].scaling.Some?
    requires !DesiredWorkers(p.wds[entry.wd].scaling.value, entry.load, config.neverShutdownFixed).Crash?
    ensures var p' := Scaled(p, entry, config);
      var answer := DesiredWorkers(p.wds[entry.wd].scaling.value, entry.load, config.neverShutdownFixed);
      && |p'.targets| == |p.targets| + 1 && p.targets <= p'.targets
      && var target := p'.targets[|p.targets|];
         && (answer.BadSettings? ==> target == 0)
         && (answer.Workers? && config.limit.GetOr(0) == 0 ==> target == answer.n)
         && (answer.Workers? && config.limit.GetOr(0) != 0 ==>
               target <= answer.n && target <= config.limit.value - p.total
               && (target == answer.n || target == config.limit.value - p.total))
         && (target > 0 ==> p'.total == p.total + target)
         && (target <= 0 ==> p'.total == p.total + p.wds[entry.wd].replicas)
  {
  }

  /** A deployment without settings, or without workers, or with a minimum, or whenever updates are asked
      for, gets the platform's settings once its model is known, by the id it has or by the one the
      platform gives; otherwise it keeps its own. Nothing else of it changes. */
  lemma SettingsArrive(d: Deployment, config: Config, api: Api)
    ensures var due := d.scaling.None? || d.replicas == 0 || config.continueUpdate || d.scaling.value.workersMin > 0;
      var id := if d.modelId.Some? then d.modelId else api.modelId(d.supplier, d.model, d.version);
      var d' := Refreshed(d, config, api);
      && d' == d.(modelId := d'.modelId, scaling := d'.scaling)
      && (due ==> d'.modelId == id)
      && (due && id.Some? ==> d'.scaling == api.scaling(id.value))
      && (!due || id.None? ==> d'.scaling == d.scaling)
      && (!due ==> d' == d)
  {
  }

  // ---- the autoscaler object -----------------------------------------------

  ghost function Snapshot(wds: set<WorkerDeployment>): map<WorkerDeployment, Deployment>
    reads wds
  {
    map w | w in wds :: w.Value()
  }

  ghost predicate Touches(os: seq<Outside<WorkerDeployment>>, wds: set<WorkerDeployment>) {
    forall o :: o in os && o.Replicas? ==> o.wd in wds
  }

  class AutoScaler {
    const config: Config
    var cleanupDeployments: set<string>
    var cleanupTimer: Option<nat>
    var scheduled: set<nat>
    var nextTimer: nat
    var commands: seq<Command>
    ghost var last: map<string, int>

    constructor (config: Config)
      ensures this.config == config && Current() == IDLE
    {
      this.config := config;
      cleanupDeployments, cleanupTimer, scheduled, nextTimer, commands, last := {}, None, {}, 0, [], map[];
    }

    ghost function Current(): Scaler
      reads this
    {
      Scaler(cleanupDeployments, cleanupTimer, scheduled, nextTimer, commands, last)
    }

    /** `_scale_deployment`: decides on a number of workers and acts on it. Returns what counts towards
        the total, or nothing when the rules raise an unexpected exception. */
    method ScaleDeployment(wd: WorkerDeployment, load: Load, limit: Option<int>) returns (counted: Option<int>)
      requires wd.scaling.Some?
      modifies this
      ensures Target(wd.scaling.value, load, config, limit).None? ==> counted == None && Current() == old(Current())
      ensures Target(wd.scaling.value, load, config, limit).Some? ==>
        var target := Target(wd.scaling.value, load, config, limit).value;
        counted == Some(Counted(wd.replicas, target)) && Current() == Decide(old(Current()), wd.name, wd.replicas, target)
    {
      var desired := 0;
      match DesiredWorkers(wd.scaling.value, load, config.neverShutdownFixed) {
        case Workers(n) =>
          desired := n;
          if limit.Some? && desired > limit.value {
            desired := limit.value;
          }
        case BadSettings =>
        case Crash =>
          return None;
      }
      last := last[wd.name := desired];
      if desired > 0 && wd.name in cleanupDeployments {
        cleanupDeployments := cleanupDeployments - {wd.name};
      }
      if wd.replicas != desired {
        if desired > 0 {
          commands := commands + [Scale(wd.name, desired)];
        } else {
          if cleanupTimer.Some? {
            scheduled := scheduled - {cleanupTimer.value};
            cleanupTimer := None;
          }
          cleanupDeployments := cleanupDeployments + {wd.name};
          cleanupTimer := Some(nextTimer);
          scheduled := scheduled + {nextTimer};
          nextTimer := nextTimer + 1;
          return Some(wd.replicas);
        }
      }
      counted := Some(desired);
    }

    /** The event loop fires a timer: `_cleanup`. */
    method Cleanup(timer: nat)
      requires timer in scheduled
      modifies this
      ensures Current() == Step(old(Current()), Fired(timer))
    {
      scheduled := scheduled - {timer};
      if cleanupDeployments != {} {
        commands := commands + [Shutdown(cleanupDeployments)];
        cleanupDeployments := {};
      }
    }

    /** `_scale_models`: one pass over the models in priority order. */
    method ScaleModels(turns: seq<Turn<WorkerDeployment>>, api: Api, ghost wds: set<WorkerDeployment>)
      returns (total: int, crashed: bool)
      requires forall turn :: turn in turns ==> turn.entry.wd in wds && Touches(turn.before, wds) && Touches(turn.during, wds)
      modifies this, wds
      ensures var p := RunPass(Pass(old(Snapshot(wds)), old(Current()), 0, [], false), turns, config, api);
        Snapshot(wds) == p.wds && Current() == p.scaler && total == p.total && crashed == p.crashed
    {
      total, crashed := 0, false;
      ghost var start := Pass(Snapshot(wds), Current(), 0, [], false);
      ghost var p := start;
      for i := 0 to |turns|
        invariant !crashed && p == RunPass(start, turns[..i], config, api)
        invariant p == Pass(Snapshot(wds), Current(), total, p.targets, crashed)
      {
        assert turns[..i + 1][..i] == turns[..i] && turns[i] in turns;
        ghost var next := PassStep(p, turns[i], config, api);
        HappenAll(turns[i].before, wds, p);
        total, crashed := ScaleModel(turns[i], api, total, wds, AllHappened(p, turns[i].before));
        p := next;
        if crashed {
          CrashedStays(start, turns, i + 1, config, api);
          return;
        }
      }
      assert turns[..|turns|] == turns;
    }

    /** Updates and timers while the pass waits. */
    method HappenAll(os: seq<Outside<WorkerDeployment>>, ghost wds: set<WorkerDeployment>, ghost p: Pass<WorkerDeployment>)
      requires Touches(os, wds) && p.wds == Snapshot(wds) && p.scaler == Current()
      modifies this, wds
      ensures Snapshot(wds) == AllHappened(p, os).wds && Current() == AllHappened(p, os).scaler
    {
      for i := 0 to |os|
        invariant Snapshot(wds) == AllHappened(p, os[..i]).wds && Current() == AllHappened(p, os[..i]).scaler
      {
        assert os[..i + 1][..i] == os[..i] && os[i] in os;
        Happen(os[i], wds, AllHappened(p, os[..i]));
      }
      assert os[..|os|] == os;
    }

    method Happen(o: Outside<WorkerDeployment>, ghost wds: set<WorkerDeployment>, ghost p: Pass<WorkerDeployment>)
      requires (o.Replicas? ==> o.wd in wds) && p.wds == Snapshot(wds) && p.scaler == Current()
      modifies this, wds
      ensures Snapshot(wds) == Happened(p, o).wds && Current() == Happened(p, o).scaler
    {
      match o {
        case Replicas(wd, n) =>
          wd.replicas := n;
        case Due(timer) =>
          if timer in scheduled {
            Cleanup(timer);
          }
      }
    }

    /** One turn of the pass. */
    method ScaleModel(turn: Turn<WorkerDeployment>, api: Api, before: int, ghost wds: set<WorkerDeployment>,
                      ghost p: Pass<WorkerDeployment>)
      returns (total: int, crashed: bool)
      requires turn.entry.wd in wds && Touches(turn.during, wds)
      requires p == Pass(Snapshot(wds), Current(), before, p.targets, false)
      modifies this, wds
      ensures var p' := TurnTaken(p, turn, config, api);
        p' == Pass(Snapshot(wds), Current(), total, p'.targets, crashed)
    {
      total, crashed := before, false;
      var wd := turn.entry.wd;
      if wd.scaling.Some? && wd.scaling.value.strategy.None? {
        return;
      }
      LoadSettings(wd, api, wds);
      ghost var loaded := p.(wds := Snapshot(wds));
      HappenAll(turn.during, wds, loaded);
      if wd.scaling.Some? {
        var counted := ScaleDeployment(wd, turn.entry.load, Allowance(config, total));
        if counted.None? {
          return total, true;
        }
        total := total + counted.value;
      }
    }

    /** Loads the model id and the settings when they are due. */
    method LoadSettings(wd: WorkerDeployment, api: Api, ghost wds: set<WorkerDeployment>)
      requires wd in wds
      modifies wd
      ensures wd.Value() == Refreshed(old(wd.Value()), config, api)
      ensures Snapshot(wds) == old(Snapshot(wds))[wd := Refreshed(old(wd.Value()), config, api)]
    {
      var workersMin := if wd.scaling.Some? then wd.scaling.value.workersMin else 0;
      if wd.scaling.None? || wd.replicas == 0 || config.continueUpdate || workersMin > 0 {
        if wd.modelId.None? {
          wd.modelId := api.modelId(wd.supplier, wd.model, wd.version);
        }
        if wd.modelId.Some? {
          wd.scaling := api.scaling(wd.modelId.value);
        }
      }
    }
  }

  /** After an exception nothing more happens in the pass. */
  lemma {:induction false} CrashedStays<K>(start: Pass<K>, turns: seq<Turn<K>>, i: nat, config: Config, api: Api)
    requires forall turn :: turn in turns ==> turn.entry.wd in start.wds
    requires i <= |turns| && RunPass(start, turns[..i], config, api).crashed
    ensures RunPass(start, turns, config, api) == RunPass(start, turns[..i], config, api)
    decreases |turns| - i
  {
    if i == |turns| {
      assert turns[..i] == turns;
    } else {
      assert turns[..i + 1][..i] == turns[..i];
      CrashedStays(start, turns, i + 1, config, api);
    }
  }
}
