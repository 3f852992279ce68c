/** The searches in flight, and the most there ever were. */
module InFlight {
  import opened Results
  import opened Intervals

  function Entries(ops: seq<Op>): nat {
    if ops == [] then 0 else Entries(ops[..|ops| - 1]) + if ops[|ops| - 1].EnterOp? then 1 else 0
  }

  function Exits(ops: seq<Op>): nat {
    if ops == [] then 0 else Exits(ops[..|ops| - 1]) + if ops[|ops| - 1].LeaveOp? then 1 else 0
  }

  /** Nobody leaves that has not entered. */
  predicate Balanced(ops: seq<Op>) {
    ops == [] || (Exits(ops) <= Entries(ops) && Balanced(ops[..|ops| - 1]))
  }

  /** In flight are those that have entered and not left. */
  lemma {:induction false} InFlightExactly(ops: seq<Op>)
    requires Balanced(ops)
    ensures LifeOf(ops).run.inFlight == Entries(ops) - Exits(ops)
  {
    if ops != [] {
      InFlightExactly(ops[..|ops| - 1]);
    }
  }

  /** Whatever happens, the peak is the most that were ever in flight. */
  lemma {:induction false} PeakIsMost(ops: seq<Op>, k: nat) returns (at: nat)
    requires k <= |ops|
    ensures LifeOf(ops[..k]).run.inFlight <= LifeOf(ops).run.peak
    ensures at <= |ops| && LifeOf(ops[..at]).run.inFlight == LifeOf(ops).run.peak
  {
    if ops == [] {
      at := 0;
    } else {
      var before := ops[..|ops| - 1];
      at := PeakIsMost(before, if k < |ops| then k else 0);
      assert before[..at] == ops[..at];
      assert k < |ops| ==> before[..k] == ops[..k];
      assert k == |ops| ==> ops[..k] == ops;
      StepPeak(LifeOf(before), ops[|ops| - 1]);
      PeakHolds(before);
      if LifeOf(ops).run.peak != LifeOf(before).run.peak {
        at := |ops|;
        assert ops[..at] == ops;
      }
    }
  }

  lemma StepPeak(l: Life, op: Op)
    ensures var m := Lived(l, op);
      && m.run.peak == (if op.EnterOp? && l.run.inFlight + 1 > l.run.peak then l.run.inFlight + 1 else l.run.peak)
      && m.run.inFlight == (if op.EnterOp? then l.run.inFlight + 1
                            else if op.LeaveOp? && l.run.inFlight > 0 then l.run.inFlight - 1 else l.run.inFlight)
  {
    hide Recorded, IntervalAdded, Lagged, FollowedUp;
  }

  lemma {:induction false} PeakHolds(ops: seq<Op>)
    ensures LifeOf(ops).run.inFlight <= LifeOf(ops).run.peak
  {
    if ops != [] {
      PeakHolds(ops[..|ops| - 1]);
      StepPeak(LifeOf(ops[..|ops| - 1]), ops[|ops| - 1]);
    }
  }
}
