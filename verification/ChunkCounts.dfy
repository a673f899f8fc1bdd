/** How many chunks an analysis is split into: `_get_inputs_generation_chunks` and
    `_get_loss_generation_chunks` in src/server/oasisapi/analyses/v2_api/task_controller.py, and the
    checks made before they are called. */
module ChunkCounts {
  import opened Arithmetic
  import opened Options
  import opened Sequences
  import opened ExposureChunks

  datatype Strategy = FixedChunks | DynamicChunks

  /** `ModelChunkingOptions`; the fixed counts are nullable columns. */
  datatype ChunkingOptions = ChunkingOptions(
    lookupStrategy: Strategy,
    lossStrategy: Strategy,
    locationsPerLookup: nat,
    eventsPerAnalysis: nat,
    chunksMax: nat,
    fixedAnalysisChunks: Option<nat>,
    fixedLookupChunks: Option<nat>)

  /** What the count computation comes to: a number, Python's `None`, or an exception. */
  datatype Count = Chunks(n: nat) | NoCount | TypeFailure | DivisionByZero

  function DynamicCount(size: Option<nat>, per: nat, most: nat): Count {
    if size.None? then TypeFailure
    else if per == 0 then DivisionByZero
    else Chunks(Min(CeilDiv(size.value, per), most))
  }

  function InputChunks(options: ChunkingOptions, locLines: Option<nat>): Count {
    match options.lookupStrategy
    case FixedChunks =>
      if locLines.None? then
        if options.fixedLookupChunks.None? then NoCount else Chunks(options.fixedLookupChunks.value)
      else if options.fixedLookupChunks.None? then TypeFailure
      else Chunks(Min(options.fixedLookupChunks.value, locLines.value))
    case DynamicChunks => DynamicCount(locLines, options.locationsPerLookup, options.chunksMax)
  }

  function LossChunks(options: ChunkingOptions, events: Option<nat>): Count {
    match options.lossStrategy
    case FixedChunks =>
      if options.fixedAnalysisChunks.None? then NoCount else Chunks(options.fixedAnalysisChunks.value)
    case DynamicChunks => DynamicCount(events, options.eventsPerAnalysis, options.chunksMax)
  }

  /** What the chunking configuration endpoint lets through: every given number is at least one. */
  predicate ValidOptions(options: ChunkingOptions) {
    && options.locationsPerLookup >= 1 && options.eventsPerAnalysis >= 1 && options.chunksMax >= 1
    && options.fixedAnalysisChunks.GetOr(1) >= 1 && options.fixedLookupChunks.GetOr(1) >= 1
  }

  datatype LocationFile = NoFile | Unreadable | Rows(count: nat)

  /** `validate_v2_location_file`: the row count to chunk by, and whether the portfolio is rejected. */
  method ValidateV2LocationFile(location: LocationFile, strategy: Strategy) returns (locLines: Option<nat>, rejected: bool)
    ensures rejected <==> !LocationAccepted(location, strategy)
    ensures rejected <==> match location
                          case NoFile => strategy == DynamicChunks
                          case Unreadable => true
                          case Rows(count) => count == 0
    ensures locLines == LocationLines(location)
    ensures match locLines
            case None => !location.Rows?
            case Some(n) => location == Rows(n)
  {
    locLines, rejected := None, false;
    if location != NoFile {
      if location.Unreadable? {
        rejected := true;
      } else {
        locLines := Some(location.count);
        if location.count < 1 { rejected := true; }
      }
    } else if strategy.DynamicChunks? {
      rejected := true;
    }
  }

  predicate LocationAccepted(location: LocationFile, strategy: Strategy) {
    match location
    case NoFile => strategy.FixedChunks?
    case Unreadable => false
    case Rows(count) => count > 0
  }

  function LocationLines(location: LocationFile): Option<nat> {
    if location.Rows? then Some(location.count) else None
  }

  /** Once the checks have passed, the lookup gets at least one chunk exactly when the strategy is
      dynamic or a fixed count is set: the endpoint lets the fixed count be null. */
  lemma ValidatedInputHasChunks(options: ChunkingOptions, location: LocationFile)
    requires ValidOptions(options) && LocationAccepted(location, options.lookupStrategy)
    ensures (exists n: nat :: n >= 1 && InputChunks(options, LocationLines(location)) == Chunks(n))
       <==> options.lookupStrategy.DynamicChunks? || options.fixedLookupChunks.Some?
    ensures forall n: nat :: InputChunks(options, LocationLines(location)) == Chunks(n) ==>
      n >= 1 && (location.Rows? ==> n <= location.count)
    ensures options.lookupStrategy.FixedChunks? && options.fixedLookupChunks.Some? ==>
      var fixed := options.fixedLookupChunks.value;
      InputChunks(options, LocationLines(location))
      == Chunks(if location.Rows? && location.count < fixed then location.count else fixed)
    ensures options.lookupStrategy.DynamicChunks? ==>
      var n := InputChunks(options, LocationLines(location)).n;
      && n <= options.chunksMax && (location.count <= n * options.locationsPerLookup || n == options.chunksMax)
      && forall m: nat :: m < n ==> m * options.locationsPerLookup < location.count
  {
    var lines := LocationLines(location);
    if options.lookupStrategy.DynamicChunks? {
      DynamicCountBounds(location.count, options.locationsPerLookup, options.chunksMax);
      assert InputChunks(options, lines)
          == Chunks(Min(CeilDiv(location.count, options.locationsPerLookup), options.chunksMax));
    } else if options.fixedLookupChunks.Some? {
      var n := if lines.None? then options.fixedLookupChunks.value else Min(options.fixedLookupChunks.value, lines.value);
      assert InputChunks(options, lines) == Chunks(n);
    }
  }

  lemma DynamicCountBounds(size: nat, per: nat, most: nat)
    requires size >= 1 && per >= 1 && most >= 1
    ensures 1 <= Min(CeilDiv(size, per), most) <= size
  {
    var n := CeilDiv(size, per);
    assert size <= n * per;
    assert n == 0 ==> n * per == 0;
    assert size <= size * per;
  }

  // ---- the number of events ------------------------------------------------

  /** An event set the model offers, and its size when the settings give one. */
  datatype EventOption = EventOption(id: string, events: Option<nat>)

  /** What the two settings files say about events: how many event ids are listed, the event set
      selected, and the event sets offered (`None` when the model settings have no such section). */
  datatype EventSettings = EventSettings(ids: nat, selected: string, offered: Option<seq<EventOption>>)

  /** First offered set with the id. */
  function FirstNamed(offered: seq<EventOption>, id: string): Option<EventOption> {
    if offered == [] then None
    else if offered[0].id == id then Some(offered[0])
    else FirstNamed(offered[1..], id)
  }

  /** Size of the last offered set that has the id and a size. */
  function SizeOf(offered: seq<EventOption>, id: string): Option<nat> {
    if offered == [] then None
    else
      var last := offered[|offered| - 1];
      if last.id == id && last.events.Some? then last.events else SizeOf(offered[..|offered| - 1], id)
  }

  /** Fields the cross check of the settings files complains about. */
  function EventProblems(settings: EventSettings): set<string> {
    if settings.ids > 0 then {}
    else
      var offered := settings.offered.GetOr([]);
      var named := FirstNamed(offered, settings.selected);
      (if settings.selected == "" then {"analysis_settings_file"} else {})
      + (if offered == [] then {"model_settings_file"} else {})
      + (if named.None? then {"settings_files"}
         else if named.value.events.GetOr(0) == 0 then {"model_settings_file"}
         else {})
  }

  /** `get_num_events` for dynamic chunks; `None` when it raises. A single event id is not enough for
      it: it then looks for the event set, which the cross check has not looked at. */
  function NumEvents(settings: EventSettings): Option<nat> {
    if settings.ids > 1 then Some(settings.ids)
    else if settings.offered.None? then None
    else SizeOf(settings.offered.value, settings.selected)
  }

  lemma {:induction false} FirstNamedHasSize(offered: seq<EventOption>, id: string)
    requires FirstNamed(offered, id).Some? && FirstNamed(offered, id).value.events.Some?
    ensures SizeOf(offered, id).Some?
    ensures (forall i, j :: 0 <= i < j < |offered| ==> offered[i].id != offered[j].id) ==>
      SizeOf(offered, id) == FirstNamed(offered, id).value.events
    decreases |offered|
  {
    var n := |offered| - 1;
    FirstNamedInit(offered, id);
    if FirstNamed(offered[..n], id).Some? {
      FirstNamedHasSize(offered[..n], id);
    }
  }

  lemma {:induction false} FirstNamedInit(offered: seq<EventOption>, id: string)
    requires offered != []
    ensures var n := |offered| - 1;
      FirstNamed(offered, id) ==
        if FirstNamed(offered[..n], id).Some? then FirstNamed(offered[..n], id)
        else if offered[n].id == id then Some(offered[n]) else None
    ensures var first := FirstNamed(offered[..|offered| - 1], id);
      first.Some? ==> exists i :: 0 <= i < |offered| - 1 && offered[i].id == id
  {
    if |offered| > 1 {
      FirstNamedInit(offered[1..], id);
      assert offered[1..][..|offered| - 2] == offered[..|offered| - 1][1..];
      assert forall i :: 0 <= i < |offered| - 2 ==> offered[1..][i] == offered[i + 1];
    }
  }

  lemma {:induction false} SizedWhenOffered(offered: seq<EventOption>, id: string)
    ensures SizeOf(offered, id).Some? <==> exists e :: e in offered && e.id == id && e.events.Some?
  {
    if offered != [] {
      var init, last := offered[..|offered| - 1], offered[|offered| - 1];
      assert offered == init + [last];
      SizedWhenOffered(init, id);
    }
  }

  /** Of several offered sets with the id, the last that has a size counts. */
  lemma {:induction false} SizeIsLast(offered: seq<EventOption>, id: string, i: nat)
    requires i < |offered| && offered[i].id == id && offered[i].events.Some?
    requires forall j :: i < j < |offered| ==> offered[j].id != id || offered[j].events.None?
    ensures SizeOf(offered, id) == offered[i].events
    decreases |offered|
  {
    if i < |offered| - 1 {
      SizeIsLast(offered[..|offered| - 1], id, i);
    }
  }

  /** Once the cross check has passed, the number of events can be told exactly when it is not a
      single event id that is listed, or the event set named beside it is offered with a size. When it can, and
      the offered ids are distinct, it is positive wherever the cross check looked. */
  lemma CheckedEventsAreKnown(settings: EventSettings)
    requires EventProblems(settings) == {}
    ensures NumEvents(settings).Some?
       <==> settings.ids != 1
            || exists e :: e in settings.offered.GetOr([]) && e.id == settings.selected && e.events.Some?
    ensures settings.ids != 1
         && (forall i, j :: 0 <= i < j < |settings.offered.GetOr([])| ==>
               settings.offered.value[i].id != settings.offered.value[j].id)
        ==> NumEvents(settings).GetOr(0) > 0
  {
    SizedWhenOffered(settings.offered.GetOr([]), settings.selected);
    if settings.ids == 0 {
      var offered := settings.offered.GetOr([]);
      var named := FirstNamed(offered, settings.selected);
      assert "settings_files" !in EventProblems(settings) && "model_settings_file" !in EventProblems(settings);
      assert named.Some? && named.value.events.GetOr(0) > 0;
      FirstNamedHasSize(offered, settings.selected);
    }
  }

  /** One listed event id passes the cross check, and yet the number of events cannot be told. */
  lemma SingleEventIdFails()
    ensures var settings := EventSettings(1, "", Some([]));
      EventProblems(settings) == {} && NumEvents(settings).None?
  {
  }

  /** The settings tell the number of events: several event ids are listed; or one is, beside an event set
      that is offered with a size; or none is, and the event set selected is offered, first of all under
      a positive size. */
  ghost predicate EventsTold(settings: EventSettings) {
    var offered := settings.offered.GetOr([]);
    settings.ids > 1
    || (settings.ids == 1 && exists e :: e in offered && e.id == settings.selected && e.events.Some?)
    || (settings.ids == 0 && settings.selected != ""
        && exists i :: 0 <= i < |offered| && FirstIs(offered, i, settings.selected) && offered[i].events.GetOr(0) > 0)
  }

  ghost predicate FirstIs(offered: seq<EventOption>, i: nat, id: string)
    requires i < |offered|
  {
    offered[i].id == id && forall j :: 0 <= j < i ==> offered[j].id != id
  }

  lemma {:induction false} FirstNamedIs(offered: seq<EventOption>, id: string, i: nat)
    requires i < |offered|
    ensures FirstIs(offered, i, id) ==> FirstNamed(offered, id) == Some(offered[i])
  {
    if i > 0 && FirstIs(offered, i, id) {
      assert offered[0].id != id;
      assert forall j :: 0 <= j < i - 1 ==> offered[1..][j] == offered[j + 1];
      FirstNamedIs(offered[1..], id, i - 1);
    }
  }

  lemma {:induction false} FirstNamedFound(offered: seq<EventOption>, id: string) returns (i: nat)
    requires FirstNamed(offered, id).Some?
    ensures i < |offered| && FirstIs(offered, i, id) && FirstNamed(offered, id) == Some(offered[i])
  {
    if offered[0].id == id {
      i := 0;
    } else {
      var at := FirstNamedFound(offered[1..], id);
      i := at + 1;
      assert forall j :: 0 < j < |offered| ==> offered[j] == offered[1..][j - 1];
    }
  }

  /** The cross check finds no problem and the number of events can be told exactly when the settings tell
      it; several listed event ids are the number themselves. */
  lemma EventsUsableIff(settings: EventSettings)
    ensures EventProblems(settings) == {} && NumEvents(settings).Some? <==> EventsTold(settings)
    ensures settings.ids > 1 ==> NumEvents(settings) == Some(settings.ids)
  {
    var offered := settings.offered.GetOr([]);
    var first := FirstNamed(offered, settings.selected);
    SizedWhenOffered(offered, settings.selected);
    if settings.ids == 0 {
      assert EventProblems(settings) == {} <==> settings.selected != "" && first.Some? && first.value.events.GetOr(0) > 0 by {
        NoProblemWhenNamed(settings);
      }
      if first.Some? {
        var i := FirstNamedFound(offered, settings.selected);
        if first.value.events.Some? { FirstNamedHasSize(offered, settings.selected); }
      }
      if i: nat :| i < |offered| && FirstIs(offered, i, settings.selected) && offered[i].events.GetOr(0) > 0 {
        FirstNamedIs(offered, settings.selected, i);
      }
    }
  }

  lemma NoProblemWhenNamed(settings: EventSettings)
    requires settings.ids == 0
    ensures var first := FirstNamed(settings.offered.GetOr([]), settings.selected);
      EventProblems(settings) == {} <==> settings.selected != "" && first.Some? && first.value.events.GetOr(0) > 0
  {
    var problems := EventProblems(settings);
    assert problems == {} ==> "analysis_settings_file" !in problems && "model_settings_file" !in problems && "settings_files" !in problems;
  }

  /** The losses get at least one chunk exactly when a fixed count is set, or the events are counted
      and there are some; the dynamic count then covers them all, unless the maximum stops it, and no
      smaller one would. */
  lemma LossHasChunks(options: ChunkingOptions, events: Option<nat>)
    requires ValidOptions(options)
    ensures (exists n: nat :: n >= 1 && LossChunks(options, events) == Chunks(n))
       <==> if options.lossStrategy.DynamicChunks? then events.GetOr(0) > 0 else options.fixedAnalysisChunks.Some?
    ensures options.lossStrategy.FixedChunks? && options.fixedAnalysisChunks.Some? ==>
      LossChunks(options, events) == Chunks(options.fixedAnalysisChunks.value)
    ensures forall n: nat :: options.lossStrategy.DynamicChunks? && LossChunks(options, events) == Chunks(n) ==>
      && events.Some?
      && n <= options.chunksMax && (events.value <= n * options.eventsPerAnalysis || n == options.chunksMax)
      && forall m: nat :: m < n ==> m * options.eventsPerAnalysis < events.value
  {
    if options.lossStrategy.DynamicChunks? && events.Some? {
      var n := Min(CeilDiv(events.value, options.eventsPerAnalysis), options.chunksMax);
      assert LossChunks(options, events) == Chunks(n);
      assert n == 0 ==> CeilDiv(events.value, options.eventsPerAnalysis) == 0;
    } else if options.lossStrategy.FixedChunks? && options.fixedAnalysisChunks.Some? {
      assert LossChunks(options, events) == Chunks(options.fixedAnalysisChunks.value);
    }
  }

  /** Every chunk stays within the configured size exactly when the chunks together have room for
      all the subjects. */
  lemma ChunksFit<S(!new)>(ids: seq<S>, k: nat, per: nat)
    requires 0 < k
    ensures (forall c: nat :: c < k ==> |ChunkSubjects(ids, k, c)| <= per) <==> |Distinct(ids)| <= k * per
  {
    var n := |Distinct(ids)|;
    LargestBlock(n, k, per);
    if forall c: nat :: c < k ==> |ChunkSubjects(ids, k, c)| <= per {
      assert BlockSize(n, k, 0) == |ChunkSubjects(ids, k, 0)|;
    }
    if BlockSize(n, k, 0) <= per {
      forall c: nat | c < k
        ensures |ChunkSubjects(ids, k, c)| <= per
      {
        assert |ChunkSubjects(ids, k, c)| == BlockSize(n, k, c);
      }
    }
  }

  lemma LargestBlock(n: nat, k: nat, per: nat)
    requires 0 < k
    ensures BlockSize(n, k, 0) <= per <==> n <= k * per
  {
    var q, r := n / k, n % k;
    assert n == k * q + r;
    if q + 1 <= per {
      MulMonotone(q + 1, per, k);
      assert (q + 1) * k == q * k + k;
    } else if per < q {
      MulMonotone(per + 1, q, k);
      assert (per + 1) * k == per * k + k;
    }
  }

  /** With dynamic chunks, no chunk holds more than the configured number of subjects unless the
      maximum number of chunks cut the count short. */
  lemma DynamicChunksFit<S(!new)>(ids: seq<S>, options: ChunkingOptions, locLines: nat, c: nat)
    requires ValidOptions(options) && options.lookupStrategy.DynamicChunks?
    requires |Distinct(ids)| <= locLines && 0 < locLines
    requires CeilDiv(locLines, options.locationsPerLookup) <= options.chunksMax
    requires c < InputChunks(options, Some(locLines)).n
    ensures |ChunkSubjects(ids, InputChunks(options, Some(locLines)).n, c)| <= options.locationsPerLookup
  {
    var k := InputChunks(options, Some(locLines)).n;
    assert locLines <= k * options.locationsPerLookup;
    ChunksFit(ids, k, options.locationsPerLookup);
  }
}
