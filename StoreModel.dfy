/**
 * The game/economy store (store.ts) as a state record and one transition function per action.
 * Each zustand `set` call replaces some fields of the record and keeps the rest; the class in
 * module Store performs these transitions in place and is proved against them.
 */
module StoreModel {
  import opened Wrappers
  import opened Constants

  /** Per-car customisation: paint colour, rim style index, spoiler type index. */
  datatype CarConfig = CarConfig(color: string, rim: int, spoiler: int)

  /** `Partial<CarConfig>`: the fields present in an `updateCarConfig` call. */
  datatype PartialConfig = PartialConfig(color: Option<string>, rim: Option<int>, spoiler: Option<int>)

  datatype StoreState = StoreState(
    money: int,
    ownedCars: seq<string>,
    selectedCarId: string,
    gameState: GameState,
    carConfigs: map<string, CarConfig>,
    weather: WeatherType,
    speed: real,
    isSpeeding: bool,
    wantedLevel: int,
    wantedTimer: real,
    activeMissionId: Option<string>,
    missionCheckpointIndex: int,
    missionTimeRemaining: real,
    missionCompleted: bool)

  /** The fields written to storage under the key 'streetbound-save'. */
  datatype SaveData = SaveData(
    money: int,
    ownedCars: seq<string>,
    selectedCarId: string,
    carConfigs: map<string, CarConfig>)

  /** The literal speed above which `setSpeed` reports speeding while playing. */
  const SpeedingThreshold: real := 75.0

  const Initial: StoreState := StoreState(
    0, ["starter"], "starter", Menu, map[], Sunny,
    0.0, false, 0, 0.0,
    None, 0, 0.0, false)

  function AddMoney(s: StoreState, amount: int): StoreState
  {
    s.(money := s.money + amount)
  }

  /** The three-way guard of `buyCar`: the car exists, is affordable and is not yet owned. */
  predicate CanBuy(s: StoreState, id: string)
  {
    FindCar(id).Some? && s.money >= FindCar(id).value.price && id !in s.ownedCars
  }

  function BuyCar(s: StoreState, id: string): StoreState
  {
    if CanBuy(s, id) then
      s.(money := s.money - FindCar(id).value.price,
         ownedCars := s.ownedCars + [id],
         selectedCarId := id)
    else s
  }

  /** `selectCar` writes any id: it checks neither ownership nor existence. */
  function SelectCar(s: StoreState, id: string): StoreState
  {
    s.(selectedCarId := id)
  }

  /** The config used when a car has none yet: its catalogue colour (or '#fff'), rim 0, spoiler 0. */
  function DefaultConfig(id: string): CarConfig
  {
    var car := FindCar(id);
    CarConfig(if car.Some? && car.value.color != "" then car.value.color else "#fff", 0, 0)
  }

  /** `{...base, ...c}`: the fields present in `c` win. */
  function Merge(base: CarConfig, c: PartialConfig): CarConfig
  {
    CarConfig(
      if c.color.Some? then c.color.value else base.color,
      if c.rim.Some? then c.rim.value else base.rim,
      if c.spoiler.Some? then c.spoiler.value else base.spoiler)
  }

  function ConfigOrDefault(s: StoreState, id: string): CarConfig
  {
    if id in s.carConfigs then s.carConfigs[id] else DefaultConfig(id)
  }

  function UpdateCarConfig(s: StoreState, id: string, c: PartialConfig): StoreState
  {
    s.(carConfigs := s.carConfigs[id := Merge(ConfigOrDefault(s, id), c)])
  }

  function SetGameState(s: StoreState, g: GameState): StoreState
  {
    s.(gameState := g)
  }

  function SetWeather(s: StoreState, w: WeatherType): StoreState
  {
    s.(weather := w)
  }

  function SetSpeed(s: StoreState, speed: real): StoreState
  {
    s.(speed := speed, isSpeeding := s.gameState == Playing && speed > SpeedingThreshold)
  }

  /** `startMission` neither validates the id nor looks at a run already in progress. */
  function StartMission(s: StoreState, id: string, timeLimit: real): StoreState
  {
    s.(activeMissionId := Some(id), missionCheckpointIndex := 0, missionTimeRemaining := timeLimit,
       missionCompleted := false, gameState := Playing)
  }

  /** `nextCheckpoint` has no upper bound. */
  function NextCheckpoint(s: StoreState): StoreState
  {
    s.(missionCheckpointIndex := s.missionCheckpointIndex + 1)
  }

  /** JavaScript truthiness of `state.activeMissionId`: both null and the empty string are false. */
  predicate HasActiveId(s: StoreState)
  {
    s.activeMissionId.Some? && s.activeMissionId.value != ""
  }

  function TickMissionTimer(s: StoreState, delta: real): StoreState
  {
    if !HasActiveId(s) || s.missionCompleted then s
    else if s.missionTimeRemaining - delta <= 0.0 then
      s.(missionTimeRemaining := 0.0, activeMissionId := None)
    else
      s.(missionTimeRemaining := s.missionTimeRemaining - delta)
  }

  function EndMission(s: StoreState): StoreState
  {
    s.(activeMissionId := None, missionCompleted := false)
  }

  function ResetRuntime(s: StoreState): StoreState
  {
    s.(speed := 0.0, isSpeeding := false, wantedLevel := 0, wantedTimer := 0.0, activeMissionId := None)
  }

  /** `partialize`: the persisted projection of the store. */
  function Partialize(s: StoreState): SaveData
  {
    SaveData(s.money, s.ownedCars, s.selectedCarId, s.carConfigs)
  }

  /** The store's action interface (setWantedLevel aside). */
  datatype Action =
    | AddMoneyAct(amount: int)
    | BuyCarAct(carId: string)
    | SelectCarAct(carId: string)
    | UpdateCarConfigAct(carId: string, config: PartialConfig)
    | SetGameStateAct(state: GameState)
    | SetWeatherAct(w: WeatherType)
    | SetSpeedAct(speed: real)
    | StartMissionAct(missionId: string, timeLimit: real)
    | NextCheckpointAct
    | TickMissionTimerAct(delta: real)
    | EndMissionAct
    | ResetRuntimeAct

  function Apply(s: StoreState, a: Action): StoreState
  {
    match a
    case AddMoneyAct(amount) => AddMoney(s, amount)
    case BuyCarAct(id) => BuyCar(s, id)
    case SelectCarAct(id) => SelectCar(s, id)
    case UpdateCarConfigAct(id, c) => UpdateCarConfig(s, id, c)
    case SetGameStateAct(g) => SetGameState(s, g)
    case SetWeatherAct(w) => SetWeather(s, w)
    case SetSpeedAct(v) => SetSpeed(s, v)
    case StartMissionAct(id, t) => StartMission(s, id, t)
    case NextCheckpointAct => NextCheckpoint(s)
    case TickMissionTimerAct(d) => TickMissionTimer(s, d)
    case EndMissionAct => EndMission(s)
    case ResetRuntimeAct => ResetRuntime(s)
  }

  /** The state after the actions, in order. */
  function Run(s: StoreState, acts: seq<Action>): StoreState
    decreases |acts|
  {
    if acts == [] then s else Run(Apply(s, acts[0]), acts[1..])
  }

  // ---------------------------------------------------------------------------------------------
  // buyCar

  /** `buyCar` changes the state exactly when the guard holds, and then only money, owned cars
      and the selection: the price is paid, the id appended and selected. */
  lemma BuyCarEffect(s: StoreState, id: string)
    ensures BuyCar(s, id) != s <==> CanBuy(s, id)
    ensures CanBuy(s, id) ==>
      var r := BuyCar(s, id);
      && r.money == s.money - FindCar(id).value.price
      && r.ownedCars == s.ownedCars + [id]
      && r.selectedCarId == id
      && r.(money := s.money, ownedCars := s.ownedCars, selectedCarId := s.selectedCarId) == s
  {
    if CanBuy(s, id) {
      assert id in BuyCar(s, id).ownedCars;
    }
  }

  /** A purchase never overdraws a non-negative balance and never removes or duplicates a car. */
  lemma BuyCarKeepsBalanceAndOwnership(s: StoreState, id: string)
    requires s.money >= 0
    ensures BuyCar(s, id).money >= 0
    ensures forall c :: c in s.ownedCars ==> c in BuyCar(s, id).ownedCars
    ensures NoDuplicates(s.ownedCars) ==> NoDuplicates(BuyCar(s, id).ownedCars)
  {
  }

  /** Buying 'sport' (price 8000) from the initial garage with exactly 8000 succeeds; with 7999
      it is a no-op. */
  lemma BuySportExample()
    ensures var r := BuyCar(AddMoney(Initial, 8000), "sport");
      r.money == 0 && r.ownedCars == ["starter", "sport"] && r.selectedCarId == "sport"
    ensures BuyCar(AddMoney(Initial, 7999), "sport") == AddMoney(Initial, 7999)
  {
    assert FindCar("sport").Some? && FindCar("sport").value.price == 8000 by { CarLookup(2); }
    assert "sport" !in ["starter"] by { assert "sport"[1] == 'p' && "starter"[1] == 't'; }
  }

  // ---------------------------------------------------------------------------------------------
  // Ownership: what the store keeps and what it does not

  predicate NoDuplicates(xs: seq<string>)
  {
    forall i, j :: 0 <= i < j < |xs| ==> xs[i] != xs[j]
  }

  /** The starter car is owned and no car is owned twice. */
  predicate OwnershipInvariant(s: StoreState)
  {
    "starter" in s.ownedCars && NoDuplicates(s.ownedCars)
  }

  lemma ApplyKeepsOwnership(s: StoreState, a: Action)
    requires OwnershipInvariant(s)
    ensures OwnershipInvariant(Apply(s, a))
    ensures forall c :: c in s.ownedCars ==> c in Apply(s, a).ownedCars
  {
  }

  /** Along any sequence of actions from a state satisfying the invariant, owned cars only grow,
      the starter stays owned and no car is duplicated. */
  lemma {:induction false} RunKeepsOwnership(s: StoreState, acts: seq<Action>)
    requires OwnershipInvariant(s)
    ensures OwnershipInvariant(Run(s, acts))
    ensures forall c :: c in s.ownedCars ==> c in Run(s, acts).ownedCars
    decreases |acts|
  {
    if acts != [] {
      ApplyKeepsOwnership(s, acts[0]);
      RunKeepsOwnership(Apply(s, acts[0]), acts[1..]);
    }
  }

  lemma InitialOwnership()
    ensures Initial.ownedCars == ["starter"] && Initial.selectedCarId == "starter"
    ensures OwnershipInvariant(Initial)
    ensures Initial.selectedCarId in Initial.ownedCars
  {
  }

  /** "The selected car is owned" is not an invariant: `selectCar` takes any id. */
  lemma SelectCarIgnoresOwnership(s: StoreState, id: string)
    ensures SelectCar(s, id).selectedCarId == id
    ensures SelectCar(s, id).ownedCars == s.ownedCars
    ensures id !in s.ownedCars ==> SelectCar(s, id).selectedCarId !in SelectCar(s, id).ownedCars
  {
  }

  lemma SelectUnownedExample()
    ensures var r := Run(Initial, [SelectCarAct("super")]);
      OwnershipInvariant(r) && r.selectedCarId !in r.ownedCars
  {
    assert "super" !in Initial.ownedCars;
  }

  /** When every amount added is non-negative, no action takes a non-negative balance below zero. */
  predicate NonNegativeCredits(acts: seq<Action>)
  {
    forall k :: 0 <= k < |acts| && acts[k].AddMoneyAct? ==> acts[k].amount >= 0
  }

  lemma {:induction false} RunKeepsBalance(s: StoreState, acts: seq<Action>)
    requires s.money >= 0 && NonNegativeCredits(acts)
    ensures Run(s, acts).money >= 0
    decreases |acts|
  {
    if acts != [] {
      assert Apply(s, acts[0]).money >= 0 by {
        if acts[0].BuyCarAct? { BuyCarKeepsBalanceAndOwnership(s, acts[0].carId); }
      }
      assert NonNegativeCredits(acts[1..]) by {
        forall k | 0 <= k < |acts[1..]| && acts[1..][k].AddMoneyAct?
          ensures acts[1..][k].amount >= 0
        {
          assert acts[1..][k] == acts[k + 1];
        }
      }
      RunKeepsBalance(Apply(s, acts[0]), acts[1..]);
    }
  }

  // ---------------------------------------------------------------------------------------------
  // updateCarConfig

  /** The car's new config is its existing one (or the default) overridden by exactly the fields
      given; no other car's config changes and no entry is removed. */
  lemma UpdateCarConfigEffect(s: StoreState, id: string, c: PartialConfig)
    ensures var r := UpdateCarConfig(s, id, c);
      && r.carConfigs.Keys == s.carConfigs.Keys + {id}
      && (forall other :: other in s.carConfigs && other != id ==> r.carConfigs[other] == s.carConfigs[other])
      && r.carConfigs[id].color == (if c.color.Some? then c.color.value else ConfigOrDefault(s, id).color)
      && r.carConfigs[id].rim == (if c.rim.Some? then c.rim.value else ConfigOrDefault(s, id).rim)
      && r.carConfigs[id].spoiler == (if c.spoiler.Some? then c.spoiler.value else ConfigOrDefault(s, id).spoiler)
      && r.(carConfigs := s.carConfigs) == s
  {
  }

  /** The default for a catalogue car is its own colour with rim 0 and spoiler 0; an unknown id
      gets '#fff'. */
  lemma DefaultConfigExamples()
    ensures DefaultConfig("sport") == CarConfig("#eab308", 0, 0)
    ensures DefaultConfig("tank") == CarConfig("#fff", 0, 0)
  {
    assert FindCar("sport") == Some(Cars[2]) by { CarLookup(2); }
    assert FindCar("tank").None? by {
      assert Cars[0].id[0] == 's' && Cars[1].id[0] == 's' && Cars[2].id[0] == 's' && Cars[3].id[0] == 's';
      assert "tank"[0] == 't';
    }
  }

  // ---------------------------------------------------------------------------------------------
  // setSpeed, startMission, tickMissionTimer, endMission, resetRuntime

  lemma SetSpeedFlag(s: StoreState, v: real)
    ensures SetSpeed(s, v).isSpeeding <==> s.gameState == Playing && v > PoliceThreshold as real
    ensures SetSpeed(s, v).speed == v
    ensures SetSpeed(s, v).(speed := s.speed, isSpeeding := s.isSpeeding) == s
  {
  }

  lemma StartMissionEffect(s: StoreState, id: string, timeLimit: real)
    ensures var r := StartMission(s, id, timeLimit);
      && r.activeMissionId == Some(id) && r.missionCheckpointIndex == 0
      && r.missionTimeRemaining == timeLimit && !r.missionCompleted && r.gameState == Playing
      && Partialize(r) == Partialize(s)
  {
  }

  /** Timer semantics: nothing happens without an active, uncompleted run; otherwise the time
      drops by delta, and a run whose time reaches 0 is cleared with the clock at 0. */
  lemma TickMissionTimerEffect(s: StoreState, delta: real)
    ensures var r := TickMissionTimer(s, delta);
      && (!HasActiveId(s) || s.missionCompleted ==> r == s)
      && (HasActiveId(s) && !s.missionCompleted && s.missionTimeRemaining - delta <= 0.0 ==>
            r.missionTimeRemaining == 0.0 && r.activeMissionId.None?)
      && (HasActiveId(s) && !s.missionCompleted && s.missionTimeRemaining - delta > 0.0 ==>
            r.missionTimeRemaining == s.missionTimeRemaining - delta && r.activeMissionId == s.activeMissionId)
      && r.(missionTimeRemaining := s.missionTimeRemaining, activeMissionId := s.activeMissionId) == s
  {
  }

  /** A 45-second run ticked by deltas that add up to 45 ends with the clock at 0 and no active id. */
  lemma TimeoutExample()
    ensures var r := Run(StartMission(Initial, "m1", 45.0),
                         [TickMissionTimerAct(20.0), TickMissionTimerAct(20.0), TickMissionTimerAct(5.0)]);
      r.activeMissionId.None? && r.missionTimeRemaining == 0.0 && r.money == 0
  {
    var s0 := StartMission(Initial, "m1", 45.0);
    var s1 := TickMissionTimer(s0, 20.0);
    assert s1.missionTimeRemaining == 25.0;
    var s2 := TickMissionTimer(s1, 20.0);
    assert s2.missionTimeRemaining == 5.0 && HasActiveId(s2);
  }

  /** Ending a run or resetting the runtime clears the active mission and leaves the persisted
      fields alone. */
  lemma EndAndResetKeepSave(s: StoreState)
    ensures EndMission(s).activeMissionId.None? && !EndMission(s).missionCompleted
    ensures ResetRuntime(s).activeMissionId.None? && ResetRuntime(s).speed == 0.0 && !ResetRuntime(s).isSpeeding
    ensures Partialize(EndMission(s)) == Partialize(s)
    ensures Partialize(ResetRuntime(s)) == Partialize(s)
  {
  }

  /** Only the economy actions touch the persisted projection. */
  lemma RuntimeActionsKeepSave(s: StoreState, a: Action)
    requires !a.AddMoneyAct? && !a.BuyCarAct? && !a.SelectCarAct? && !a.UpdateCarConfigAct?
    ensures Partialize(Apply(s, a)) == Partialize(s)
  {
  }

  /** No action ever sets `missionCompleted`: from a state where it is false it stays false. */
  lemma {:induction false} MissionCompletedNeverSet(s: StoreState, acts: seq<Action>)
    requires !s.missionCompleted
    ensures !Run(s, acts).missionCompleted
    decreases |acts|
  {
    if acts != [] {
      MissionCompletedNeverSet(Apply(s, acts[0]), acts[1..]);
    }
  }
}
