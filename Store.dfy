/**
 * The zustand store `useGameStore` (store.ts) as a mutable object. Each action replaces the
 * fields its `set` call names; every method is proved to move the object's snapshot exactly as
 * the matching transition of StoreModel does.
 */
module Store {
  import opened Wrappers
  import opened Constants
  import opened StoreModel

  class GameStore {
    var money: int
    var ownedCars: seq<string>
    var selectedCarId: string
    var gameState: GameState
    var carConfigs: map<string, CarConfig>
    var weather: WeatherType
    var speed: real
    var isSpeeding: bool
    var wantedLevel: int
    var wantedTimer: real
    var activeMissionId: Option<string>
    var missionCheckpointIndex: int
    var missionTimeRemaining: real
    var missionCompleted: bool

    /** The store's current value as a record. */
    function Snapshot(): StoreState
      reads this
    {
      StoreState(money, ownedCars, selectedCarId, gameState, carConfigs, weather,
                 speed, isSpeeding, wantedLevel, wantedTimer,
                 activeMissionId, missionCheckpointIndex, missionTimeRemaining, missionCompleted)
    }

    /** The initial state passed to `create` (before any saved fields are restored). */
    constructor ()
      ensures Snapshot() == Initial
    {
      money, ownedCars, selectedCarId, gameState := 0, ["starter"], "starter", Menu;
      carConfigs, weather := map[], Sunny;
      speed, isSpeeding, wantedLevel, wantedTimer := 0.0, false, 0, 0.0;
      activeMissionId, missionCheckpointIndex, missionTimeRemaining, missionCompleted := None, 0, 0.0, false;
    }

    method AddMoney(amount: int)
      modifies this
      ensures Snapshot() == StoreModel.AddMoney(old(Snapshot()), amount)
    {
      money := money + amount;
    }

    method BuyCar(carId: string)
      modifies this
      ensures Snapshot() == StoreModel.BuyCar(old(Snapshot()), carId)
    {
      var car := FindCar(carId);
      if car.Some? && money >= car.value.price && carId !in ownedCars {
        money := money - car.value.price;
        ownedCars := ownedCars + [carId];
        selectedCarId := carId;
      }
    }

    method SelectCar(carId: string)
      modifies this
      ensures Snapshot() == StoreModel.SelectCar(old(Snapshot()), carId)
    {
      selectedCarId := carId;
    }

    method UpdateCarConfig(carId: string, config: PartialConfig)
      modifies this
      ensures Snapshot() == StoreModel.UpdateCarConfig(old(Snapshot()), carId, config)
    {
      var base := if carId in carConfigs then carConfigs[carId] else DefaultConfig(carId);
      carConfigs := carConfigs[carId := Merge(base, config)];
    }

    method SetGameState(state: GameState)
      modifies this
      ensures Snapshot() == StoreModel.SetGameState(old(Snapshot()), state)
    {
      gameState := state;
    }

    method SetWeather(w: WeatherType)
      modifies this
      ensures Snapshot() == StoreModel.SetWeather(old(Snapshot()), w)
    {
      weather := w;
    }

    method SetSpeed(newSpeed: real)
      modifies this
      ensures Snapshot() == StoreModel.SetSpeed(old(Snapshot()), newSpeed)
    {
      speed := newSpeed;
      isSpeeding := gameState == Playing && newSpeed > 75.0;
    }

    method StartMission(missionId: string, timeLimit: real)
      modifies this
      ensures Snapshot() == StoreModel.StartMission(old(Snapshot()), missionId, timeLimit)
    {
      activeMissionId := Some(missionId);
      missionCheckpointIndex := 0;
      missionTimeRemaining := timeLimit;
      missionCompleted := false;
      gameState := Playing;
    }

    method NextCheckpoint()
      modifies this
      ensures Snapshot() == StoreModel.NextCheckpoint(old(Snapshot()))
    {
      missionCheckpointIndex := missionCheckpointIndex + 1;
    }

    method TickMissionTimer(delta: real)
      modifies this
      ensures Snapshot() == StoreModel.TickMissionTimer(old(Snapshot()), delta)
    {
      if activeMissionId.None? || activeMissionId.value == "" || missionCompleted {
        return;
      }
      var newTime := missionTimeRemaining - delta;
      if newTime <= 0.0 {
        missionTimeRemaining := 0.0;
        activeMissionId := None;
        return;
      }
      missionTimeRemaining := newTime;
    }

    method EndMission()
      modifies this
      ensures Snapshot() == StoreModel.EndMission(old(Snapshot()))
    {
      activeMissionId := None;
      missionCompleted := false;
    }

    method ResetRuntime()
      modifies this
      ensures Snapshot() == StoreModel.ResetRuntime(old(Snapshot()))
    {
      speed, isSpeeding, wantedLevel, wantedTimer := 0.0, false, 0, 0.0;
      activeMissionId := None;
    }

    /** The object handed to storage. */
    method Partialize() returns (save: SaveData)
      ensures save == StoreModel.Partialize(Snapshot())
      ensures save.money == money && save.ownedCars == ownedCars
      ensures save.selectedCarId == selectedCarId && save.carConfigs == carConfigs
    {
      save := SaveData(money, ownedCars, selectedCarId, carConfigs);
    }
  }
}
