/** Paused time, measured: what a run's row says of it is the time in which the run was not going. */
module PausedTime {
  import opened Wrappers
  import opened RunControl

  /** The controls come one after the other, none before `from`, none after `to`. */
  predicate InTime(from: real, controls: seq<Control>, to: real)
    decreases |controls|
  {
    if controls == [] then from <= to else from <= controls[0].at && InTime(controls[0].at, controls[1..], to)
  }

  function GoesAfter(going: bool, control: Control): bool {
    match control
    case Paused(_) => false
    case Resumed(_) => true
    case LoadSet(_, _, _) => going
  }

  /** The time from `from` to `to` that is not spent between a pause and the next resume. */
  function TimeGoing(going: bool, from: real, controls: seq<Control>, to: real): real
    decreases |controls|
  {
    var until := if controls == [] then to else controls[0].at;
    (if going then until - from else 0.0) +
    if controls == [] then 0.0 else TimeGoing(GoesAfter(going, controls[0]), until, controls[1..], to)
  }

  /** Read from the front: a pause while the run goes, a resume while it does not. */
  predicate Brackets(going: bool, controls: seq<Control>)
    decreases |controls|
  {
    controls == [] ||
    (&& (controls[0].Paused? ==> going) && (controls[0].Resumed? ==> !going)
     && Brackets(GoesAfter(going, controls[0]), controls[1..]))
  }

  function GoesAfterAll(going: bool, controls: seq<Control>): bool
    decreases |controls|
  {
    if controls == [] then going else GoesAfterAll(GoesAfter(going, controls[0]), controls[1..])
  }

  lemma {:induction false} OneMore(going: bool, controls: seq<Control>, last: Control)
    ensures GoesAfterAll(going, controls + [last]) == GoesAfter(GoesAfterAll(going, controls), last)
    ensures Brackets(going, controls + [last]) <==>
      && Brackets(going, controls)
      && (last.Paused? ==> GoesAfterAll(going, controls)) && (last.Resumed? ==> !GoesAfterAll(going, controls))
    decreases |controls|
  {
    if controls == [] {
      assert controls + [last] == [last];
    } else {
      assert (controls + [last])[1..] == controls[1..] + [last];
      OneMore(GoesAfter(going, controls[0]), controls[1..], last);
    }
  }

  lemma {:induction false} AlternatingBrackets(controls: seq<Control>)
    ensures GoesAfterAll(true, controls) == OpenPause(controls).None?
    ensures Alternates(controls) ==> Brackets(true, controls)
  {
    if controls != [] {
      var before, last := controls[..|controls| - 1], controls[|controls| - 1];
      AlternatingBrackets(before);
      OneMore(true, before, last);
      assert controls == before + [last];
    }
  }

  lemma {:induction false} CoverAndGoing(going: bool, from: real, controls: seq<Control>, to: real)
    requires Brackets(going, controls) && InTime(from, controls, to)
    ensures PausesCover(controls, to) + TimeGoing(going, from, controls, to) ==
            if going then to - from else to - NextResume(controls, to)
    ensures from <= NextResume(controls, to)
    decreases |controls|
  {
    if controls != [] {
      CoverAndGoing(GoesAfter(going, controls[0]), controls[0].at, controls[1..], to);
    }
  }

  /** Over every sequence of changes to a fresh row, as long as the clock does not go back: the run
    * has been paused for exactly the time in which it was not going, unless the pause it is in
    * started at the clock's zero. */
  lemma PausedIsNotGoing(run: Run, changes: seq<Change>, from: real, now: real)
    requires run.controls == [] && run.pausedAt.None? && run.pausedS == 0.0
    requires InTime(from, ChangedBy(run, changes).controls, now)
    ensures var changed := ChangedBy(run, changes);
      PausedSeconds(changed, now) == now - from - TimeGoing(true, from, changed.controls, now) <==>
      !(changed.pausedAt == Some(0.0) && now > 0.0)
  {
    hide ChangedBy, PausesCover, TimeGoing, PausedSeconds;
    var changed := ChangedBy(run, changes);
    ControlsAccountForPauses(run, changes);
    PausedSecondsReplays(changed, now);
    AlternatingBrackets(changed.controls);
    CoverAndGoing(true, from, changed.controls, now);
  }
}
