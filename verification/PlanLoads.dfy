/** How much a plan takes on, and on how many workers: in the figures of the order, the scenario and
  * the fleet's settings. */
module PlanLoads {
  import opened Wrappers
  import opened Apportion
  import opened Planning
  import Rounding

  /** What one worker of an engine holds: browser contexts, or virtual users. */
  function Holds(sizing: Sizing, engine: Engine): Positive {
    match engine
    case Browser => sizing.contextsPerWorker
    case Api => sizing.usersPerWorker
  }

  /** There is a group for each engine that some persona uses, api first; and one of api where none uses
    * any. */
  lemma EnginesExactly(b: Brief)
    ensures var uses := (engine: Engine) => exists i :: 0 <= i < |b.personas| && engine in b.personas[i].engines;
      && (Browser in Engines(b) <==> uses(Browser))
      && (Api in Engines(b) <==> uses(Api) || !uses(Browser))
      && (|Engines(b)| == 2 ==> Engines(b)[0] == Api && Engines(b)[1] == Browser)
  {
  }

  // ------------------------------------------------------------- closed model

  /** A closed group gets the fewest workers that hold its users, each of them no more than its
    * engine's figure; or as many as the order asks for, but never more than there are users. */
  lemma ClosedWorkers(b: Brief, k: nat)
    requires k < |Engines(b)| && ModelOf(b).Closed?
    ensures var workers, users := Planned(b)[k].workers, GroupUsers(Planned(b)[k]);
      && |users| == workers <= Sum(users)
      && (!CountGiven(b) ==> (workers - 1) * Holds(b.sizing, Engines(b)[k]) < Sum(users))
      && (!CountGiven(b) ==> forall i :: 0 <= i < workers ==> users[i] <= Holds(b.sizing, Engines(b)[k]))
      && (CountGiven(b) && |Engines(b)| == 1 ==>
            workers == if b.request.workers.value <= Sum(users) then b.request.workers.value else Sum(users))
  {
    hide ModelOf, Engines, DealtUsers, SplitEvenly;
    PlannedGroup(b, |Engines(b)|, k);
    ClosedShares(b, k);
    WorkersFitUsers(b, k);
    if !CountGiven(b) {
      FewestHold(UsersFor(b, k), Density(b, Engines(b)[k]));
    }
  }

  lemma FewestHold(users: Positive, density: Positive)
    ensures ((users + density - 1) / density - 1) * density < users
    ensures Max(1, (users + density - 1) / density) == (users + density - 1) / density <= users
  {
    CeilCovers(users, density);
    var workers := (users + density - 1) / density;
    assert workers * density <= users + density - 1;
    assert (workers - 1) * density == workers * density - density;
  }

  /** A run that asks for a number of users gets exactly those, whatever the scenario says, unless
    * it asks for a rate or the scenario runs to a schedule. */
  lemma OrderedUsers(b: Brief)
    requires Stated(b.request.users, 0) && b.request.users.value > 0 && !Stated(b.request.rate, 0.0)
    requires !b.load.model.Schedule? && |Engines(b)| == 1 && Weighted(b.personas)
    ensures PlanUsers(Planned(b)) == b.request.users.value
  {
    hide Weighted, Engines;
    DealtAddUp(b);
    ClosedPlanConservesUsersExactly(b);
  }

  /** One that asks for no load of its own runs the scenario's; one that asks for a pace runs an open
    * scenario closed. */
  lemma ScenarioUsers(b: Brief)
    requires !Stated(b.request.users, 0) && !Stated(b.request.rate, 0.0)
    requires b.load.model.Closed? || (b.load.model.OpenLoop? && b.request.pacing.Some?)
    requires b.load.users > 0 && |Engines(b)| == 1 && Weighted(b.personas)
    ensures PlanUsers(Planned(b)) == b.load.users
  {
    hide Weighted, Engines;
    DealtAddUp(b);
    ClosedPlanConservesUsersExactly(b);
  }

  // ------------------------------------------------------------------ weights

  /** A persona that uses both engines counts half for each, one that uses none counts for api. */
  function Part(p: Persona, engine: Engine): real {
    if p.engines == {Api, Browser} then p.weight / 2.0
    else if p.engines == {engine} || (p.engines == {} && engine.Api?) then p.weight
    else 0.0
  }

  lemma PartOfPersona(p: Persona, engine: Engine)
    ensures WeightIn(p, engine) == Part(p, engine)
  {
    var named := (if Api in p.engines then {Api} else {}) + (if Browser in p.engines then {Browser} else {});
    forall e | e in p.engines
      ensures e in named
    {
      assert e == Api || e == Browser;
    }
    assert p.engines == named;
  }

  function Parts(personas: seq<Persona>, engine: Engine): (parts: seq<real>)
    ensures |parts| == |personas|
  {
    seq(|personas|, i requires 0 <= i < |personas| => Part(personas[i], engine))
  }

  lemma {:induction false} WeightsAddUp(personas: seq<Persona>, engine: Engine)
    ensures EngineWeight(personas, engine) == SumReal(Parts(personas, engine))
  {
    if personas != [] {
      PartOfPersona(personas[0], engine);
      WeightsAddUp(personas[1..], engine);
      assert Parts(personas, engine)[1..] == Parts(personas[1..], engine);
    }
  }

  /** An engine's part of the load of a mixed run. */
  function Fraction(b: Brief, engine: Engine): real
    requires SumReal(Parts(b.personas, Api)) + SumReal(Parts(b.personas, Browser)) != 0.0
  {
    SumReal(Parts(b.personas, engine)) / (SumReal(Parts(b.personas, Api)) + SumReal(Parts(b.personas, Browser)))
  }

  lemma MixedFraction(b: Brief, k: nat)
    requires |Engines(b)| == 2 && k < 2 && Weighted(b.personas)
    ensures SumReal(Parts(b.personas, Api)) + SumReal(Parts(b.personas, Browser)) > 0.0
    ensures Divisor(EngineWeights(b)) > 0.0
    ensures EngineWeights(b)[k].weight == Fraction(b, Engines(b)[k]) * Divisor(EngineWeights(b))
    ensures Fraction(b, Api) + Fraction(b, Browser) == 1.0
  {
    hide Weighted, Parts, EngineWeight;
    MixedWeights(b);
    WeightsAddUp(b.personas, Api);
    WeightsAddUp(b.personas, Browser);
    var ws := Weights(EngineWeights(b));
    assert SumReal(ws) == ws[0] + SumReal(ws[1..]);
    assert SumReal(ws[1..]) == ws[1] + SumReal(ws[1..][1..]);
  }

  /** An engine of a mixed run is dealt its part of the users, rounded up or down. */
  lemma UsersByWeight(b: Brief, k: nat)
    requires |Engines(b)| == 2 && k < 2 && Weighted(b.personas)
    ensures SumReal(Parts(b.personas, Api)) + SumReal(Parts(b.personas, Browser)) > 0.0
    ensures var part := TotalUsers(b) as real * Fraction(b, Engines(b)[k]);
            DealtUsers(b, k) as real - 1.0 < part < DealtUsers(b, k) as real + 1.0
  {
    hide Weighted, Parts, EngineWeights, Fraction, TotalUsers, Dealt, Engines;
    MixedFraction(b, k);
    MixedWeights(b);
    DealApportions(TotalUsers(b), EngineWeights(b));
    QuotaIs(TotalUsers(b), EngineWeights(b), k, Fraction(b, Engines(b)[k]));
  }

  lemma QuotaIs(total: int, ws: seq<Weight>, k: nat, part: real)
    requires k < |ws| && ws[k].weight == part * Divisor(ws)
    ensures Quota(total, ws, k) == total as real * part
  {
    OfWhole(total as real, part, Divisor(ws));
  }

  lemma OfWhole(total: real, fraction: real, whole: real)
    requires whole != 0.0
    ensures total * (fraction * whole) / whole == total * fraction
  {
    assert total * (fraction * whole) == total * fraction * whole;
  }

  /** A mixed run gets the workers it asks for exactly when each engine is dealt one. */
  lemma AskedWorkers(b: Brief)
    requires |Engines(b)| == 2 && CountGiven(b) && !ModelOf(b).Closed? && Weighted(b.personas)
    ensures var dealt := Dealt(b.request.workers.value, EngineWeights(b));
      Planned(b)[0].workers + Planned(b)[1].workers == b.request.workers.value <==> dealt[0] >= 1 && dealt[1] >= 1
  {
    hide Weighted, Engines, ModelOf, Dealt, EngineWeights, WeightTotal;
    PlannedGroup(b, 2, 0);
    PlannedGroup(b, 2, 1);
    MixedWeights(b);
    DealApportions(b.request.workers.value, EngineWeights(b));
    var dealt := Dealt(b.request.workers.value, EngineWeights(b));
    assert Sum(dealt) == dealt[0] + Sum(dealt[1..]);
    assert Sum(dealt[1..]) == dealt[1] + Sum(dealt[1..][1..]);
  }

  // --------------------------------------------------------------- open model

  /** The rate of an engine: all of it, or its part in a mixed run. */
  function GroupRate(b: Brief, k: nat): real
    requires k < |Engines(b)| && Weighted(b.personas)
  {
    if |Engines(b)| == 1 then TotalRate(b)
    else
      MixedFraction(b, k);
      TotalRate(b) * Fraction(b, Engines(b)[k])
  }

  lemma GroupRateIs(b: Brief, k: nat)
    requires k < |Engines(b)| && Weighted(b.personas)
    ensures RateFor(b, k) == GroupRate(b, k)
  {
    hide Weighted, EngineWeights, Fraction, TotalRate, Engines;
    assert |Engines(b)| == 1 || |Engines(b)| == 2 by { EngineCount(b); }
    if |Engines(b)| == 2 {
      MixedFraction(b, k);
      OfWhole(TotalRate(b), Fraction(b, Engines(b)[k]), Divisor(EngineWeights(b)));
    }
  }

  lemma EngineCount(b: Brief)
    ensures |Engines(b)| == 1 || |Engines(b)| == 2
  {
  }

  function SlotRate(b: Brief, k: nat, index: nat): Option<real>
    requires k < |Engines(b)| && index < |Planned(b)[k].slots|
  {
    Planned(b)[k].slots[index].share.rate
  }

  /** Every worker of an open group takes the same rate, its group's divided to four decimals; and
    * unless the count is given, there are the fewest workers for which that is at most sixty
    * arrivals a minute for each user or context that one holds. */
  lemma OpenShares(b: Brief, k: nat, index: nat)
    requires k < |Engines(b)| && ModelOf(b).OpenLoop? && Weighted(b.personas) && index < |Planned(b)[k].slots|
    ensures var workers, rate, hold := Planned(b)[k].workers, GroupRate(b, k), Holds(b.sizing, Engines(b)[k]) as real * 60.0;
      && workers == |Planned(b)[k].slots|
      && SlotRate(b, k, index).Some?
      && -0.00005 <= SlotRate(b, k, index).value - rate / (workers as real) <= 0.00005
      && (!CountGiven(b) && 0.0 < rate ==> rate <= (workers as real) * hold && (workers as real) * hold - hold < rate)
  {
    hide Weighted, Engines, ModelOf, CountGiven, GroupRate, RateFor, Round4, Sized;
    PlannedGroup(b, |Engines(b)|, k);
    GroupRateIs(b, k);
    NearFourDecimals(RateFor(b, k) / WorkersFor(b, k) as real);
    if !CountGiven(b) && 0.0 < GroupRate(b, k) {
      OpenWorkers(b, k);
    }
  }

  lemma OpenWorkers(b: Brief, k: nat)
    requires k < |Engines(b)| && ModelOf(b).OpenLoop? && !CountGiven(b) && 0.0 < RateFor(b, k)
    ensures var workers, hold := WorkersFor(b, k), Holds(b.sizing, Engines(b)[k]) as real * 60.0;
      RateFor(b, k) <= (workers as real) * hold && (workers as real) * hold - hold < RateFor(b, k)
  {
    hide Engines, ModelOf, CountGiven, RateFor, Rounding.Ceil;
    FewestCarry(RateFor(b, k), Holds(b.sizing, Engines(b)[k]) as real * 60.0);
  }

  lemma NearFourDecimals(x: real)
    ensures -0.00005 <= Round4(x) - x <= 0.00005
  {
  }

  lemma FewestCarry(rate: real, hold: real)
    requires 0.0 < rate && 0.0 < hold
    ensures var workers := Rounding.Ceil(rate / hold);
      1 <= workers && rate <= (workers as real) * hold && (workers as real) * hold - hold < rate
  {
    Carried(rate, hold, rate / hold, Rounding.Ceil(rate / hold));
  }

  lemma Carried(rate: real, hold: real, quotient: real, workers: int)
    requires 0.0 < hold && 0.0 < rate && quotient * hold == rate && workers as real - 1.0 < quotient <= workers as real
    ensures 1 <= workers && rate <= (workers as real) * hold && (workers as real) * hold - hold < rate
  {
    if quotient <= 0.0 {
      Scaled(quotient, 0.0, hold);
      assert false;
    }
    Scaled(quotient, workers as real, hold);
    StrictlyScaled(workers as real - 1.0, quotient, hold);
  }

  lemma Scaled(a: real, b: real, scale: real)
    requires a <= b && scale >= 0.0
    ensures a * scale <= b * scale
  {
  }

  lemma StrictlyScaled(a: real, b: real, scale: real)
    requires a < b && scale > 0.0
    ensures a * scale < b * scale
  {
  }

  /** The rates of the groups add up to the run's: the one it asks for, or the scenario's. */
  lemma GroupRatesAddUp(b: Brief)
    requires Weighted(b.personas)
    ensures |Engines(b)| == 1 ==> GroupRate(b, 0) == TotalRate(b)
    ensures |Engines(b)| == 2 ==> GroupRate(b, 0) + GroupRate(b, 1) == TotalRate(b)
    ensures Stated(b.request.rate, 0.0) ==> ModelOf(b).OpenLoop? && TotalRate(b) == b.request.rate.value
    ensures !Stated(b.request.rate, 0.0) ==> TotalRate(b) == b.load.rate
    ensures !Stated(b.request.users, 0) && b.request.pacing.None? && b.load.model.OpenLoop? ==> ModelOf(b).OpenLoop?
  {
    if |Engines(b)| == 2 {
      hide Weighted, Fraction;
      MixedFraction(b, 0);
      MixedFraction(b, 1);
      var total, f, g := TotalRate(b), Fraction(b, Api), Fraction(b, Browser);
      assert total * f + total * g == total * (f + g);
    }
  }

  /** A changed rate is shared out alike over an open group, to four decimals. */
  lemma LiveRate(roster: seq<Slot>, engine: Engine, rate: real, i: nat)
    requires forall j :: 0 <= j < |roster| ==> roster[j].share.engine == engine && roster[j].share.model.OpenLoop?
    requires i < |roster|
    ensures SlotLoad(roster, Some(rate), roster[i]).Some?
    ensures -0.00005 <= SlotLoad(roster, Some(rate), roster[i]).value - rate / (|roster| as real) <= 0.00005
  {
    WholeGroup(roster, engine);
    NearFourDecimals(rate / |roster| as real);
  }
}
