/** How a run becomes worker groups and slots, and how a live load change is shared out. */
module Planning {
  import opened Wrappers
  import opened Apportion
  import Rounding

  datatype Engine = Api | Browser {
    function Name(): string {
      if this.Api? then "api" else "browser"
    }
  }

  datatype Model = Closed | OpenLoop | Schedule

  /** What one slot is to generate. The engine is also the name of the slot's group. */
  datatype Share = Share(
    model: Model, engine: Engine, groupSlot: nat, groupWorkers: nat, users: Option<int>, rate: Option<real>)

  datatype Slot = Slot(number: nat, share: Share)

  datatype Group = Group(engine: Engine, workers: nat, slots: seq<Slot>)

  /** A run row's own load, where it states one. */
  datatype RunOrder = RunOrder(workers: Option<int>, users: Option<int>, rate: Option<real>, pacing: Option<real>)

  datatype Load = Load(model: Model, users: int, rate: real)

  /** A weighted archetype and the engines its steps use. */
  datatype Persona = Persona(weight: real, engines: set<Engine>)

  type Positive = n: nat | n > 0 witness 1

  datatype Sizing = Sizing(usersPerWorker: Positive, contextsPerWorker: Positive)

  datatype Brief = Brief(request: RunOrder, load: Load, personas: seq<Persona>, sizing: Sizing)

  function Max(a: int, b: int): int {
    if a > b then a else b
  }

  /** Python's round(x, 4). */
  function Round4(x: real): real {
    Rounding.RoundHalfEven(x * 10000.0) as real / 10000.0
  }

  // ------------------------------------------------------------ the inputs

  predicate Uses(personas: seq<Persona>, engine: Engine) {
    exists i :: 0 <= i < |personas| && engine in personas[i].engines
  }

  /** The engines the scenario's steps use, in name order; api when it has no steps. */
  function Engines(b: Brief): (engines: seq<Engine>)
    ensures engines == [Api] || engines == [Browser] || engines == [Api, Browser]
  {
    if !Uses(b.personas, Browser) then [Api]
    else if !Uses(b.personas, Api) then [Browser]
    else [Api, Browser]
  }

  /** A persona's weight is split evenly between its engines; without steps it is api's. */
  function WeightIn(p: Persona, engine: Engine): real {
    if p.engines == {} then if engine.Api? then p.weight else 0.0
    else if engine in p.engines then p.weight / |p.engines| as real
    else 0.0
  }

  function EngineWeight(personas: seq<Persona>, engine: Engine): real {
    if personas == [] then 0.0 else WeightIn(personas[0], engine) + EngineWeight(personas[1..], engine)
  }

  function EngineWeights(b: Brief): (ws: seq<Weight>)
    ensures |ws| == |Engines(b)|
  {
    seq(|Engines(b)|, k requires 0 <= k < |Engines(b)| =>
      Weight(Engines(b)[k].Name(), EngineWeight(b.personas, Engines(b)[k])))
  }

  predicate Stated<T(==)>(figure: Option<T>, zero: T) {
    figure.Some? && figure.value != zero
  }

  function ModelOf(b: Brief): Model {
    if Stated(b.request.rate, 0.0) then OpenLoop
    else if Stated(b.request.users, 0) || b.request.pacing.Some? then
      if b.load.model.Schedule? then Schedule else Closed
    else b.load.model
  }

  function TotalUsers(b: Brief): int {
    if Stated(b.request.users, 0) then b.request.users.value
    else if b.load.users != 0 then b.load.users
    else 1
  }

  function TotalRate(b: Brief): real {
    if Stated(b.request.rate, 0.0) then b.request.rate.value else b.load.rate
  }

  // ---------------------------------------------------------- one group each

  function Density(b: Brief, engine: Engine): Positive {
    if engine.Browser? then b.sizing.contextsPerWorker else b.sizing.usersPerWorker
  }

  predicate CountGiven(b: Brief) {
    b.request.workers.Some? && b.request.workers.value > 0
  }

  /** The users dealt to an engine, before the floor of one. */
  function DealtUsers(b: Brief, k: nat): int
    requires k < |Engines(b)|
  {
    if |Engines(b)| > 1 then Dealt(TotalUsers(b), EngineWeights(b))[k] else TotalUsers(b)
  }

  function UsersFor(b: Brief, k: nat): (users: Positive)
    requires k < |Engines(b)|
  {
    Max(1, DealtUsers(b, k))
  }

  function RateFor(b: Brief, k: nat): real
    requires k < |Engines(b)|
  {
    if |Engines(b)| == 1 then TotalRate(b)
    else TotalRate(b) * EngineWeights(b)[k].weight / Divisor(EngineWeights(b))
  }

  function Sized(b: Brief, k: nat): (workers: int)
    requires k < |Engines(b)|
    ensures workers >= 1
  {
    var engine := Engines(b)[k];
    if CountGiven(b) then
      if |Engines(b)| == 1 then b.request.workers.value
      else Max(1, Dealt(b.request.workers.value, EngineWeights(b))[k])
    else if ModelOf(b).Closed? then Max(1, (UsersFor(b, k) + Density(b, engine) - 1) / Density(b, engine))
    else if ModelOf(b).OpenLoop? && RateFor(b, k) != 0.0 then
      Max(1, Rounding.Ceil(RateFor(b, k) / (Density(b, engine) as real * 60.0)))
    else 1
  }

  /** Never more closed-model workers than users. */
  function WorkersFor(b: Brief, k: nat): (workers: Positive)
    requires k < |Engines(b)|
  {
    if ModelOf(b).Closed? && Sized(b, k) > UsersFor(b, k) then UsersFor(b, k) else Sized(b, k)
  }

  function ShareAt(b: Brief, k: nat, index: nat): Share
    requires k < |Engines(b)| && index < WorkersFor(b, k)
  {
    Share(
      ModelOf(b), Engines(b)[k], index, WorkersFor(b, k),
      if ModelOf(b).Closed? then Some(Max(1, SplitEvenly(UsersFor(b, k), WorkersFor(b, k))[index])) else None,
      if ModelOf(b).OpenLoop? then Some(Round4(RateFor(b, k) / WorkersFor(b, k) as real)) else None)
  }

  function GroupAt(b: Brief, k: nat, base: nat): (g: Group)
    requires k < |Engines(b)|
    ensures |g.slots| == g.workers == WorkersFor(b, k)
  {
    Group(Engines(b)[k], WorkersFor(b, k), seq(WorkersFor(b, k), index requires 0 <= index < WorkersFor(b, k) =>
      Slot(base + index, ShareAt(b, k, index))))
  }

  /** The workers of the first k groups. */
  function SlotBase(groups: seq<Group>, k: nat): nat
    requires k <= |groups|
  {
    if k == 0 then 0 else SlotBase(groups, k - 1) + groups[k - 1].workers
  }

  /** The first k groups, numbered on from each other. */
  function PlannedTo(b: Brief, k: nat): (groups: seq<Group>)
    requires k <= |Engines(b)|
    ensures |groups| == k
  {
    if k == 0 then []
    else
      var before := PlannedTo(b, k - 1);
      before + [GroupAt(b, k - 1, SlotBase(before, k - 1))]
  }

  function Planned(b: Brief): (groups: seq<Group>)
    ensures |groups| == |Engines(b)|
  {
    PlannedTo(b, |Engines(b)|)
  }

  method Plan(b: Brief) returns (groups: seq<Group>)
    ensures groups == Planned(b)
  {
    hide Dealt, ModelOf, Sized, RateFor, DealtUsers;
    var engines := Engines(b);
    groups := [];
    var nextSlot := 0;
    for k := 0 to |engines|
      invariant groups == PlannedTo(b, k)
      invariant nextSlot == SlotBase(groups, k)
    {
      var workers := WorkersFor(b, k);
      var slots: seq<Slot> := [];
      ghost var whole := GroupAt(b, k, nextSlot);
      for index := 0 to workers
        invariant slots == whole.slots[..index]
      {
        slots := slots + [Slot(nextSlot + index, ShareAt(b, k, index))];
      }
      assert slots == whole.slots;
      SlotBaseOfPrefix(groups, groups + [Group(engines[k], workers, slots)], k);
      groups := groups + [Group(engines[k], workers, slots)];
      nextSlot := nextSlot + workers;
    }
  }

  lemma {:induction false} SlotBaseOfPrefix(groups: seq<Group>, more: seq<Group>, k: nat)
    requires k <= |groups| <= |more| && groups == more[..|groups|]
    ensures SlotBase(groups, k) == SlotBase(more, k)
  {
    if k > 0 {
      assert groups[k - 1] == more[..|groups|][k - 1];
      SlotBaseOfPrefix(groups, more, k - 1);
    }
  }

  /** The base handed to the driver for each group as the groups are launched. */
  method SlotBases(groups: seq<Group>) returns (bases: seq<nat>)
    ensures |bases| == |groups| && forall k :: 0 <= k < |groups| ==> bases[k] == SlotBase(groups, k)
  {
    bases := [];
    var slotBase := 0;
    for k := 0 to |groups|
      invariant |bases| == k && forall j :: 0 <= j < k ==> bases[j] == SlotBase(groups, j)
      invariant slotBase == SlotBase(groups, k)
    {
      bases := bases + [slotBase];
      slotBase := slotBase + groups[k].workers;
    }
  }

  // --------------------------------------------------- what the plan promises

  lemma {:induction false} PlannedGroup(b: Brief, n: nat, k: nat)
    requires k < n <= |Engines(b)|
    ensures PlannedTo(b, n)[k] == GroupAt(b, k, SlotBase(PlannedTo(b, n), k))
  {
    hide GroupAt, Engines;
    var before, groups := PlannedTo(b, n - 1), PlannedTo(b, n);
    assert before == groups[..n - 1];
    if k < n - 1 {
      PlannedGroup(b, n - 1, k);
    }
    SlotBaseOfPrefix(before, groups, k);
  }

  /** A driver's slot base is the group's first slot, and the group's slots follow on from it. */
  lemma SlotsFollowTheirBase(b: Brief, k: nat, index: nat)
    requires k < |Engines(b)| && index < WorkersFor(b, k)
    ensures |Planned(b)[k].slots| == WorkersFor(b, k)
    ensures Planned(b)[k].slots[index].number == SlotBase(Planned(b), k) + index
  {
    hide WorkersFor, ShareAt, Engines;
    PlannedGroup(b, |Engines(b)|, k);
  }

  function Roster(groups: seq<Group>): seq<Slot> {
    if groups == [] then [] else Roster(groups[..|groups| - 1]) + groups[|groups| - 1].slots
  }

  /** The slots of a plan are 0 to N - 1, once each and in order. */
  lemma {:induction false} SlotsAreNumbered(b: Brief, n: nat)
    requires n <= |Engines(b)|
    ensures |Roster(PlannedTo(b, n))| == SlotBase(PlannedTo(b, n), n)
    ensures forall i :: 0 <= i < |Roster(PlannedTo(b, n))| ==> Roster(PlannedTo(b, n))[i].number == i
  {
    hide WorkersFor, ShareAt, Engines;
    if n > 0 {
      SlotsAreNumbered(b, n - 1);
      var before, groups := PlannedTo(b, n - 1), PlannedTo(b, n);
      assert before == groups[..n - 1];
      SlotBaseOfPrefix(before, groups, n - 1);
    }
  }

  function GroupUsers(g: Group): seq<int> {
    seq(|g.slots|, i requires 0 <= i < |g.slots| => g.slots[i].share.users.GetOr(0))
  }

  function PlanUsers(groups: seq<Group>): int {
    if groups == [] then 0 else PlanUsers(groups[..|groups| - 1]) + Sum(GroupUsers(groups[|groups| - 1]))
  }

  lemma WorkersFitUsers(b: Brief, k: nat)
    requires k < |Engines(b)| && ModelOf(b).Closed?
    ensures WorkersFor(b, k) <= UsersFor(b, k)
    ensures !CountGiven(b) ==> UsersFor(b, k) <= WorkersFor(b, k) * Density(b, Engines(b)[k])
  {
    hide DealtUsers, Engines, ModelOf, Density, Dealt;
    var users, density := UsersFor(b, k), Density(b, Engines(b)[k]);
    if !CountGiven(b) {
      CeilCovers(users, density);
    }
  }

  lemma CeilCovers(users: Positive, density: Positive)
    ensures 1 <= (users + density - 1) / density <= users
    ensures users <= (users + density - 1) / density * density
  {
    var workers := (users + density - 1) / density;
    assert users + density - 1 == workers * density + (users + density - 1) % density;
    AtLeast(users + density - 1, density, 1);
    if workers > users {
      MulMonotone(density, users + 1, workers);
      assert density * (users + 1) == density * users + density;
      MulMonotone(users, 1, density);
      assert false;
    }
  }

  /** A closed group hands out exactly its users: at least one to each worker, no two workers
    * more than one apart, and none above the density unless the count was asked for. */
  lemma ClosedShares(b: Brief, k: nat)
    requires k < |Engines(b)| && ModelOf(b).Closed?
    ensures var users := GroupUsers(Planned(b)[k]);
      && Sum(users) == UsersFor(b, k)
      && users == SplitEvenly(UsersFor(b, k), WorkersFor(b, k))
      && (forall i :: 0 <= i < |users| ==> users[i] >= 1)
      && (forall i, j :: 0 <= i <= j < |users| ==> users[j] <= users[i] <= users[j] + 1)
      && (!CountGiven(b) ==> forall i :: 0 <= i < |users| ==> users[i] <= Density(b, Engines(b)[k]))
  {
    hide Density, CountGiven, Engines, ModelOf, WorkersFor, UsersFor;
    PlannedGroup(b, |Engines(b)|, k);
    WorkersFitUsers(b, k);
    var total, workers := UsersFor(b, k), WorkersFor(b, k);
    EvenSplit(total, workers);
    EvenSplitWithin(total, workers, Density(b, Engines(b)[k]));
    assert GroupUsers(Planned(b)[k]) == SplitEvenly(total, workers);
  }

  /** What a scenario that lints promises of its personas. */
  predicate Weighted(personas: seq<Persona>) {
    && (forall i :: 0 <= i < |personas| ==> personas[i].weight >= 0.0)
    && (exists i :: 0 <= i < |personas| && personas[i].weight > 0.0)
  }

  lemma {:induction false} EngineWeightsCover(personas: seq<Persona>)
    requires forall i :: 0 <= i < |personas| ==> personas[i].weight >= 0.0
    ensures EngineWeight(personas, Api) >= 0.0 && EngineWeight(personas, Browser) >= 0.0
    ensures Weighted(personas) ==> EngineWeight(personas, Api) + EngineWeight(personas, Browser) > 0.0
  {
    if personas != [] {
      EngineWeightsCover(personas[1..]);
      PersonaSplit(personas[0]);
      if Weighted(personas) && personas[0].weight == 0.0 {
        var i :| 0 <= i < |personas| && personas[i].weight > 0.0;
        assert personas[1..][i - 1].weight > 0.0;
      }
    }
  }

  lemma PersonaSplit(p: Persona)
    requires p.weight >= 0.0
    ensures WeightIn(p, Api) >= 0.0 && WeightIn(p, Browser) >= 0.0
    ensures WeightIn(p, Api) + WeightIn(p, Browser) == p.weight
  {
    var named := (if Api in p.engines then {Api} else {}) + (if Browser in p.engines then {Browser} else {});
    forall e | e in p.engines
      ensures e in named
    {
      assert e == Api || e == Browser;
    }
    assert p.engines == named;
  }

  lemma MixedWeights(b: Brief)
    requires |Engines(b)| == 2 && Weighted(b.personas)
    ensures NonNegative(EngineWeights(b)) && WeightTotal(EngineWeights(b)) > 0.0
  {
    EngineWeightsCover(b.personas);
    var ws := Weights(EngineWeights(b));
    assert SumReal(ws) == ws[0] + SumReal(ws[1..]);
    assert SumReal(ws[1..]) == ws[1] + SumReal(ws[1..][1..]);
  }

  /** A closed plan runs exactly the configured users when, and only when, every engine was
    * dealt at least one; an engine dealt none still gets one, which is one too many. */
  lemma ClosedPlanConservesUsersExactly(b: Brief)
    requires ModelOf(b).Closed? && Weighted(b.personas)
    ensures PlanUsers(Planned(b)) == TotalUsers(b) <==> forall k :: 0 <= k < |Engines(b)| ==> DealtUsers(b, k) >= 1
    ensures PlanUsers(Planned(b)) >= TotalUsers(b)
  {
    hide ModelOf, Weighted, DealtUsers, GroupUsers, PlannedTo;
    var groups := Planned(b);
    ClosedShares(b, 0);
    assert groups[..1] == [groups[0]];
    assert PlanUsers(groups[..1]) == PlanUsers(groups[..0]) + Sum(GroupUsers(groups[0]));
    DealtAddUp(b);
    if |Engines(b)| == 1 {
      assert groups == groups[..1];
    } else {
      ClosedShares(b, 1);
      assert groups[..|groups| - 1] == groups[..1];
    }
  }

  /** For instance: one user over two engines becomes more than one. */
  lemma OneUserForTwoEngines(b: Brief)
    requires ModelOf(b).Closed? && Weighted(b.personas) && |Engines(b)| == 2 && TotalUsers(b) == 1
    ensures PlanUsers(Planned(b)) > TotalUsers(b)
  {
    hide ModelOf, Engines, Weighted, DealtUsers, TotalUsers;
    DealtAddUp(b);
    ClosedPlanConservesUsersExactly(b);
  }

  lemma DealtAddUp(b: Brief)
    requires Weighted(b.personas)
    ensures |Engines(b)| == 1 ==> DealtUsers(b, 0) == TotalUsers(b)
    ensures |Engines(b)| == 2 ==> DealtUsers(b, 0) + DealtUsers(b, 1) == TotalUsers(b)
  {
    hide TotalUsers, Engines, EngineWeights, WeightTotal, Dealt;
    if |Engines(b)| == 2 {
      MixedWeights(b);
      DealApportions(TotalUsers(b), EngineWeights(b));
      var dealt := Dealt(TotalUsers(b), EngineWeights(b));
      assert Sum(dealt) == dealt[0] + Sum(dealt[1..]);
      assert Sum(dealt[1..]) == dealt[1] + Sum(dealt[1..][1..]);
    }
  }

  // ------------------------------------------------------- a live load change

  function InGroup(roster: seq<Slot>, engine: Engine): (slots: seq<Slot>)
    ensures |slots| <= |roster|
  {
    if roster == [] then []
    else (if roster[0].share.engine == engine then [roster[0]] else []) + InGroup(roster[1..], engine)
  }

  function IndexIn(slots: seq<Slot>, number: nat): (i: nat)
    ensures slots != [] ==> i < |slots|
  {
    if slots == [] || slots[0].number == number then 0
    else if forall j :: 1 <= j < |slots| ==> slots[j].number != number then 0
    else IndexIn(slots[1..], number) + 1
  }

  /** A slot's share of a changed load, divided within its group; none when none was set. */
  function SlotLoad(roster: seq<Slot>, loadOverride: Option<real>, slot: Slot): Option<real> {
    var group := InGroup(roster, slot.share.engine);
    if loadOverride.None? || group == [] then None
    else match slot.share.model
      case Closed =>
        Some(SplitEvenly(Rounding.RoundHalfEven(loadOverride.value), |group|)[IndexIn(group, slot.number)] as real)
      case OpenLoop => Some(Round4(loadOverride.value / |group| as real))
      case Schedule => None
  }

  /** A roster of one closed group, as a live change of the users needs it. */
  predicate OneClosedGroup(roster: seq<Slot>, engine: Engine) {
    && roster != []
    && (forall i :: 0 <= i < |roster| ==> roster[i].share.engine == engine && roster[i].share.model.Closed?)
    && (forall i, j :: 0 <= i < j < |roster| ==> roster[i].number != roster[j].number)
  }

  lemma {:induction false} WholeGroup(roster: seq<Slot>, engine: Engine)
    requires forall i :: 0 <= i < |roster| ==> roster[i].share.engine == engine
    ensures InGroup(roster, engine) == roster
  {
    if roster != [] {
      WholeGroup(roster[1..], engine);
    }
  }

  lemma {:induction false} IndexOf(slots: seq<Slot>, i: nat)
    requires i < |slots| && forall j, k :: 0 <= j < k < |slots| ==> slots[j].number != slots[k].number
    ensures IndexIn(slots, slots[i].number) == i
  {
    if i > 0 {
      assert slots[1..][i - 1] == slots[i];
      IndexOf(slots[1..], i - 1);
    }
  }

  /** The whole users each slot of a roster is told after a change. */
  function LiveUsers(roster: seq<Slot>, loadOverride: real): (users: seq<int>)
    ensures |users| == |roster|
    ensures forall i :: 0 <= i < |roster| ==> users[i] == SlotLoad(roster, Some(loadOverride), roster[i]).GetOr(0.0).Floor
  {
    seq(|roster|, i requires 0 <= i < |roster| => SlotLoad(roster, Some(loadOverride), roster[i]).GetOr(0.0).Floor)
  }

  lemma SlotLoadAt(roster: seq<Slot>, engine: Engine, loadOverride: real, i: nat)
    requires OneClosedGroup(roster, engine) && i < |roster|
    ensures SlotLoad(roster, Some(loadOverride), roster[i]) ==
            Some(SplitEvenly(Rounding.RoundHalfEven(loadOverride), |roster|)[i] as real)
  {
    WholeGroup(roster, engine);
    IndexOf(roster, i);
  }

  /** The slots' new loads add up to the rounded change, and stay within the density when the
    * change was no more than the fleet was sized for. */
  lemma LiveLoadAddsUp(roster: seq<Slot>, engine: Engine, loadOverride: real, density: Positive)
    requires OneClosedGroup(roster, engine)
    ensures Sum(LiveUsers(roster, loadOverride)) == Rounding.RoundHalfEven(loadOverride)
    ensures loadOverride <= (|roster| * density) as real ==>
      forall i :: 0 <= i < |roster| ==> LiveUsers(roster, loadOverride)[i] <= density
  {
    hide SlotLoad, OneClosedGroup, LiveUsers;
    var total := Rounding.RoundHalfEven(loadOverride);
    var loads := LiveUsers(roster, loadOverride);
    assert |roster| > 0 by { Nonempty(roster, engine); }
    forall i | 0 <= i < |roster|
      ensures loads[i] == SplitEvenly(total, |roster|)[i]
    {
      SlotLoadAt(roster, engine, loadOverride, i);
    }
    assert loads == SplitEvenly(total, |roster|);
    EvenSplit(total, |roster|);
    if loadOverride <= (|roster| * density) as real {
      Rounding.RoundMonotone(loadOverride, (|roster| * density) as real);
      Rounding.RoundOfInteger(|roster| * density);
      EvenSplitWithin(total, |roster|, density);
    }
  }

  lemma Nonempty(roster: seq<Slot>, engine: Engine)
    requires OneClosedGroup(roster, engine)
    ensures |roster| > 0
  {
  }

  /** Setting the load a single-engine closed run was launched with hands every slot the share
    * it was launched with: a live change is a re-plan. */
  lemma LiveLoadIsAReplan(b: Brief, i: nat)
    requires |Engines(b)| == 1 && ModelOf(b).Closed? && i < WorkersFor(b, 0)
    ensures |Planned(b)[0].slots| == WorkersFor(b, 0)
    ensures SlotLoad(Planned(b)[0].slots, Some(UsersFor(b, 0) as real), Planned(b)[0].slots[i]) ==
            Some(Planned(b)[0].slots[i].share.users.GetOr(0) as real)
  {
    hide ModelOf, UsersFor, WorkersFor, SlotLoad, Engines;
    var roster := Planned(b)[0].slots;
    PlannedGroup(b, 1, 0);
    ClosedShares(b, 0);
    assert GroupUsers(Planned(b)[0])[i] == roster[i].share.users.GetOr(0);
    assert OneClosedGroup(roster, Engines(b)[0]);
    SlotLoadAt(roster, Engines(b)[0], UsersFor(b, 0) as real, i);
    Rounding.RoundOfInteger(UsersFor(b, 0));
  }
}
