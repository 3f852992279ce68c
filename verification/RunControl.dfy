/** The run row, and the changes made to a run after it has launched: pause, resume, load. */
module RunControl {
  import opened Wrappers
  import opened Planning
  import Apportion
  import Rounding

  datatype FleetState = Provisioning | Releasing | Underway | Draining | Finished

  datatype RunState = Pending | Active | Completed | Stopped | Aborted | Failed

  predicate Terminal(state: RunState) {
    !state.Pending? && !state.Active?
  }

  datatype Control =
    | Paused(at: real)
    | Resumed(at: real)
    | LoadSet(at: real, model: Model, value: real)

  datatype Run = Run(
    inProcess: bool,
    state: RunState,
    fleetState: FleetState,
    t0: Option<real>,
    startedAt: Option<real>,
    pausedAt: Option<real>,
    pausedS: real,
    loadOverride: Option<real>,
    controls: seq<Control>,
    error: Option<string>)

  /** What the control plane holds in memory for an in-process run. */
  datatype Entry = NotInFlight | Starting | Scheduled(model: Model, accepts: bool)

  datatype Refusal =
    | AlreadyOver(state: RunState)
    | NotOnThisControlPlane
    | FleetNotRunning
    | NotPaused
    | NegativeLoad
    | StillStarting
    | OverCeiling
    | SchedulerRefused
    | MixedGroups
    | NoLoadFigure
    | OverDensity

  function Objection(run: Run, entry: Entry): Option<Refusal> {
    if Terminal(run.state) then Some(AlreadyOver(run.state))
    else if run.inProcess then if entry.NotInFlight? then Some(NotOnThisControlPlane) else None
    else if run.state != Active || run.fleetState != Underway then Some(FleetNotRunning)
    else None
  }

  // ------------------------------------------------------------- the changes

  function PauseRun(run: Run, entry: Entry, now: real): (Run, Option<Refusal>) {
    var refusal := Objection(run, entry);
    if refusal.Some? then (run, refusal)
    else if run.pausedAt.Some? then (run, None)
    else (run.(pausedAt := Some(now), controls := run.controls + [Paused(now)]), None)
  }

  function PauseLength(start: real, end: real): real {
    if end > start then end - start else 0.0
  }

  function ResumeRun(run: Run, entry: Entry, now: real): (Run, Option<Refusal>) {
    if run.pausedAt.None? then (run, Some(NotPaused))
    else
      var refusal := Objection(run, entry);
      if refusal.Some? then (run, refusal)
      else
        (run.(pausedS := run.pausedS + PauseLength(run.pausedAt.value, now),
              pausedAt := None,
              controls := run.controls + [Resumed(now)]), None)
  }

  /** Why a fleet's load cannot be set to a value, if it cannot. */
  function FleetRefusal(roster: seq<Slot>, sizing: Sizing, value: real): Option<Refusal> {
    if exists i, j :: 0 <= i < j < |roster| && roster[i].share.engine != roster[j].share.engine then Some(MixedGroups)
    else if roster == [] || roster[0].share.model.Schedule? then Some(NoLoadFigure)
    else
      var density := if roster[0].share.engine.Browser? then sizing.contextsPerWorker else sizing.usersPerWorker;
      if roster[0].share.model.Closed? && value > (|roster| * density) as real then Some(OverDensity) else None
  }

  function InProcessRefusal(entry: Entry, ceiling: nat, value: real): Option<Refusal> {
    match entry
    case Scheduled(model, accepts) =>
      if model.Closed? && value > ceiling as real then Some(OverCeiling)
      else if model.OpenLoop? && value > (ceiling * 60) as real then Some(OverCeiling)
      else if !accepts then Some(SchedulerRefused)
      else None
    case _ => Some(StillStarting)
  }

  function LoadRefusal(run: Run, entry: Entry, roster: seq<Slot>, sizing: Sizing, ceiling: nat, value: real): Option<Refusal> {
    var refusal := Objection(run, entry);
    if refusal.Some? then refusal
    else if value < 0.0 then Some(NegativeLoad)
    else if run.inProcess then InProcessRefusal(entry, ceiling, value)
    else FleetRefusal(roster, sizing, value)
  }

  /** The load figure is the users of a closed model; of any other the arrival rate. */
  function Figure(model: Model): Model {
    if model.Closed? then Closed else OpenLoop
  }

  function LoadRun(run: Run, entry: Entry, roster: seq<Slot>, sizing: Sizing, ceiling: nat, value: real, now: real): (Run, Option<Refusal>) {
    var refusal := LoadRefusal(run, entry, roster, sizing, ceiling, value);
    if refusal.Some? then (run, refusal)
    else
      var model := if run.inProcess then entry.model else roster[0].share.model;
      (run.(loadOverride := Some(value), controls := run.controls + [LoadSet(now, Figure(model), value)]), None)
  }

  class RunRow {
    var inProcess: bool
    var state: RunState
    var fleetState: FleetState
    var t0: Option<real>
    var startedAt: Option<real>
    var pausedAt: Option<real>
    var pausedS: real
    var loadOverride: Option<real>
    var controls: seq<Control>
    var error: Option<string>

    ghost function View(): Run
      reads this
    {
      Run(inProcess, state, fleetState, t0, startedAt, pausedAt, pausedS, loadOverride, controls, error)
    }

    constructor (inProcess: bool)
      ensures View() == Run(inProcess, Pending, Provisioning, None, None, None, 0.0, None, [], None)
    {
      this.inProcess := inProcess;
      state, fleetState := Pending, Provisioning;
      t0, startedAt, pausedAt, pausedS := None, None, None, 0.0;
      loadOverride, controls, error := None, [], None;
    }

    method RequireRunning(entry: Entry) returns (refusal: Option<Refusal>)
      ensures refusal == Objection(View(), entry)
    {
      if Terminal(state) {
        return Some(AlreadyOver(state));
      }
      if inProcess {
        return if entry.NotInFlight? then Some(NotOnThisControlPlane) else None;
      }
      refusal := if state != Active || fleetState != Underway then Some(FleetNotRunning) else None;
    }

    method Record(control: Control)
      modifies this`controls
      ensures controls == old(controls) + [control]
    {
      controls := controls + [control];
    }

    method Pause(entry: Entry, now: real) returns (refusal: Option<Refusal>)
      modifies this
      ensures (View(), refusal) == PauseRun(old(View()), entry, now)
    {
      refusal := RequireRunning(entry);
      if refusal.Some? || pausedAt.Some? {
        return;
      }
      pausedAt := Some(now);
      Record(Paused(now));
    }

    method Resume(entry: Entry, now: real) returns (refusal: Option<Refusal>)
      modifies this
      ensures (View(), refusal) == ResumeRun(old(View()), entry, now)
    {
      if pausedAt.None? {
        return Some(NotPaused);
      }
      refusal := RequireRunning(entry);
      if refusal.Some? {
        return;
      }
      pausedS := pausedS + PauseLength(pausedAt.value, now);
      pausedAt := None;
      Record(Resumed(now));
    }

    method SetLoad(entry: Entry, roster: seq<Slot>, sizing: Sizing, ceiling: nat, value: real, now: real)
      returns (refusal: Option<Refusal>)
      modifies this
      ensures (View(), refusal) == LoadRun(old(View()), entry, roster, sizing, ceiling, value, now)
    {
      refusal := RequireRunning(entry);
      if refusal.Some? {
        return;
      }
      if value < 0.0 {
        return Some(NegativeLoad);
      }
      var model := Schedule;
      if inProcess {
        refusal := InProcessRefusal(entry, ceiling, value);
        if refusal.Some? {
          return;
        }
        model := entry.model;
      } else {
        refusal := FleetRefusal(roster, sizing, value);
        if refusal.Some? {
          return;
        }
        model := roster[0].share.model;
      }
      loadOverride := Some(value);
      Record(LoadSet(now, Figure(model), value));
    }
  }

  /** Total time paused, a pause still in progress included. */
  function PausedSeconds(run: Run, now: real): real {
    run.pausedS +
    if run.pausedAt.Some? && run.pausedAt.value != 0.0 then PauseLength(run.pausedAt.value, now) else 0.0
  }

  // ------------------------------------- the controls account for the pauses

  /** Whether the recorded controls leave the run paused, and since when. */
  function OpenPause(controls: seq<Control>): Option<real> {
    if controls == [] then None
    else match controls[|controls| - 1]
      case Paused(at) => Some(at)
      case Resumed(_) => None
      case LoadSet(_, _, _) => OpenPause(controls[..|controls| - 1])
  }

  /** Every pause is recorded while the run goes, every resume while it is paused. */
  predicate Alternates(controls: seq<Control>) {
    controls == [] ||
    var before := controls[..|controls| - 1];
    && Alternates(before)
    && match controls[|controls| - 1]
       case Paused(_) => OpenPause(before).None?
       case Resumed(_) => OpenPause(before).Some?
       case LoadSet(_, _, _) => true
  }

  /** The time covered by the recorded pauses, read from the record alone: each pause lasts until
    * the next resume, and the last one until now when none followed. */
  function PausesCover(controls: seq<Control>, now: real): real {
    if controls == [] then 0.0
    else match controls[0]
      case Paused(at) => PauseLength(at, NextResume(controls[1..], now)) + PausesCover(controls[1..], now)
      case _ => PausesCover(controls[1..], now)
  }

  function NextResume(controls: seq<Control>, now: real): real {
    if controls == [] then now
    else if controls[0].Resumed? then controls[0].at
    else NextResume(controls[1..], now)
  }

  /** The row's two pause fields are what the record says. */
  ghost predicate Accounted(run: Run) {
    && Alternates(run.controls)
    && run.pausedAt == OpenPause(run.controls)
    && forall now: real :: PausesCover(run.controls, now) ==
         run.pausedS + if run.pausedAt.Some? then PauseLength(run.pausedAt.value, now) else 0.0
  }

  lemma {:induction false} NextResumeAppend(controls: seq<Control>, more: Control, now: real)
    ensures NextResume(controls + [more], now) == NextResume(controls, if more.Resumed? then more.at else now)
  {
    if controls == [] {
      assert controls + [more] == [more];
    } else {
      assert (controls + [more])[1..] == controls[1..] + [more];
      NextResumeAppend(controls[1..], more, now);
    }
  }

  /** What one more control does to the time the record covers. */
  lemma {:induction false} CoverAppend(controls: seq<Control>, more: Control, now: real)
    ensures PausesCover(controls + [more], now) ==
            match more
            case Paused(at) => PausesCover(controls, now) + PauseLength(at, now)
            case Resumed(at) => PausesCover(controls, at)
            case LoadSet(_, _, _) => PausesCover(controls, now)
  {
    if controls == [] {
      assert controls + [more] == [more];
    } else {
      assert (controls + [more])[1..] == controls[1..] + [more];
      NextResumeAppend(controls[1..], more, now);
      CoverAppend(controls[1..], more, now);
    }
  }

  datatype Change =
    | PauseChange(entry: Entry, now: real)
    | ResumeChange(entry: Entry, now: real)
    | LoadChange(entry: Entry, roster: seq<Slot>, sizing: Sizing, ceiling: nat, value: real, now: real)
    | RowChange(state: RunState, fleetState: FleetState, t0: Option<real>, startedAt: Option<real>, error: Option<string>)

  /** One change to the row: a control, or anything the rest of the control plane writes to it. */
  function Changed(run: Run, change: Change): Run {
    match change
    case PauseChange(entry, now) => PauseRun(run, entry, now).0
    case ResumeChange(entry, now) => ResumeRun(run, entry, now).0
    case LoadChange(entry, roster, sizing, ceiling, value, now) =>
      LoadRun(run, entry, roster, sizing, ceiling, value, now).0
    case RowChange(state, fleetState, t0, startedAt, error) =>
      run.(state := state, fleetState := fleetState, t0 := t0, startedAt := startedAt, error := error)
  }

  function ChangedBy(run: Run, changes: seq<Change>): Run {
    if changes == [] then run else Changed(ChangedBy(run, changes[..|changes| - 1]), changes[|changes| - 1])
  }

  lemma RecordedAccounts(run: Run, changed: Run, more: Control)
    requires Accounted(run)
    requires changed.controls == run.controls + [more]
    requires match more
             case Paused(at) => run.pausedAt.None? && changed.pausedAt == Some(at) && changed.pausedS == run.pausedS
             case Resumed(at) => run.pausedAt.Some? && changed.pausedAt.None? &&
               changed.pausedS == run.pausedS + PauseLength(run.pausedAt.value, at)
             case LoadSet(_, _, _) => changed.pausedAt == run.pausedAt && changed.pausedS == run.pausedS
    ensures Accounted(changed)
  {
    assert changed.controls[..|changed.controls| - 1] == run.controls;
    forall now: real
      ensures PausesCover(changed.controls, now) ==
              changed.pausedS + if changed.pausedAt.Some? then PauseLength(changed.pausedAt.value, now) else 0.0
    {
      CoverAppend(run.controls, more, now);
    }
  }

  lemma ChangeAccounts(run: Run, change: Change)
    requires Accounted(run)
    ensures Accounted(Changed(run, change))
  {
    hide LoadRefusal, Objection, Accounted;
    var changed := Changed(run, change);
    if changed.controls != run.controls {
      RecordedAccounts(run, changed, changed.controls[|run.controls|]);
    } else {
      SameAccounts(run, changed);
    }
  }

  lemma SameAccounts(run: Run, changed: Run)
    requires Accounted(run)
    requires changed.controls == run.controls && changed.pausedAt == run.pausedAt && changed.pausedS == run.pausedS
    ensures Accounted(changed)
  {
  }

  /** Over every sequence of changes to a fresh row: the pauses and resumes on record alternate,
    * and the row's paused time at any instant is what the record covers. */
  lemma {:induction false} ControlsAccountForPauses(run: Run, changes: seq<Change>)
    requires run.controls == [] && run.pausedAt.None? && run.pausedS == 0.0
    ensures Accounted(ChangedBy(run, changes))
  {
    if changes != [] {
      ControlsAccountForPauses(run, changes[..|changes| - 1]);
      ChangeAccounts(ChangedBy(run, changes[..|changes| - 1]), changes[|changes| - 1]);
    }
  }

  /** The clock's own zero is the one instant a pause may not start at: it reads as no pause. */
  lemma PausedSecondsReplays(run: Run, now: real)
    requires Accounted(run)
    ensures PausedSeconds(run, now) == PausesCover(run.controls, now) <==>
            !(run.pausedAt == Some(0.0) && now > 0.0)
  {
    assert PausesCover(run.controls, now) ==
      run.pausedS + if run.pausedAt.Some? then PauseLength(run.pausedAt.value, now) else 0.0;
  }

  /** A load that was accepted for a closed fleet puts no slot above the density it was sized for,
    * and the slots' loads add up to it. */
  lemma AcceptedLoadFits(run: Run, entry: Entry, roster: seq<Slot>, sizing: Sizing, ceiling: nat, value: real)
    requires !run.inProcess && LoadRefusal(run, entry, roster, sizing, ceiling, value).None?
    requires OneClosedGroup(roster, if roster == [] then Api else roster[0].share.engine)
    ensures Apportion.Sum(LiveUsers(roster, value)) == Rounding.RoundHalfEven(value)
    ensures forall i :: 0 <= i < |roster| ==>
      LiveUsers(roster, value)[i] <= if roster[0].share.engine.Browser? then sizing.contextsPerWorker else sizing.usersPerWorker
  {
    var density := if roster[0].share.engine.Browser? then sizing.contextsPerWorker else sizing.usersPerWorker;
    LiveLoadAddsUp(roster, roster[0].share.engine, value, density);
  }

  /** An in-process run's load is accepted exactly when the run is going and here, its scheduler has
    * started and takes it, and it is no more than this control plane sustains: that many users, or
    * one arrival a second for each of them. */
  lemma InProcessLoadExactly(run: Run, entry: Entry, roster: seq<Slot>, sizing: Sizing, ceiling: nat, value: real)
    requires run.inProcess
    ensures LoadRefusal(run, entry, roster, sizing, ceiling, value).None? <==>
      && (run.state.Pending? || run.state.Active?)
      && entry.Scheduled? && entry.accepts && 0.0 <= value
      && (entry.model.Closed? ==> value <= ceiling as real)
      && (entry.model.OpenLoop? ==> value / 60.0 <= ceiling as real)
  {
  }

  /** A fleet's load is accepted exactly when the fleet is running, all its slots are of one engine and
    * none keeps to a schedule, and it is no more, for closed slots, than they hold together. */
  lemma FleetLoadExactly(run: Run, entry: Entry, roster: seq<Slot>, sizing: Sizing, ceiling: nat, value: real)
    requires !run.inProcess && forall i :: 0 <= i < |roster| ==> roster[i].share.model == roster[0].share.model
    ensures LoadRefusal(run, entry, roster, sizing, ceiling, value).None? <==>
      && run.state == Active && run.fleetState == Underway && 0.0 <= value && roster != []
      && (forall i :: 0 <= i < |roster| ==> roster[i].share.engine == roster[0].share.engine && !roster[i].share.model.Schedule?)
      && (roster[0].share.model.Closed? && roster[0].share.engine == Api ==> value <= (|roster| * sizing.usersPerWorker) as real)
      && (roster[0].share.model.Closed? && roster[0].share.engine == Browser ==> value <= (|roster| * sizing.contextsPerWorker) as real)
  {
  }

  /** An accepted load is what the run is set to from then on, and is put on record: as users where the
    * model is closed, as a rate where it is not. */
  lemma AcceptedLoadIsRecorded(run: Run, entry: Entry, roster: seq<Slot>, sizing: Sizing, ceiling: nat, value: real, now: real)
    requires LoadRefusal(run, entry, roster, sizing, ceiling, value).None?
    ensures var changed := LoadRun(run, entry, roster, sizing, ceiling, value, now).0;
      && |changed.controls| == |run.controls| + 1
      && changed == run.(loadOverride := Some(value), controls := run.controls + [changed.controls[|run.controls|]])
      && match changed.controls[|run.controls|]
         case LoadSet(at, figure, load) =>
           at == now && load == value && !figure.Schedule? &&
           (figure.Closed? <==> (if run.inProcess then entry.Scheduled? && entry.model.Closed? else roster != [] && roster[0].share.model.Closed?))
         case _ => false
  {
  }
}
