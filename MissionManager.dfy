/**
 * One frame of the checkpoint mission (components/MissionManager.tsx). The frame callback sees
 * the mission and checkpoint index captured when the component last rendered, not the store's
 * live values: it ticks the store's timer, then tests the player against the captured
 * checkpoint and either advances the store's index or pays the reward and ends the run.
 */
module MissionManager {
  import opened Wrappers
  import opened Geometry
  import opened Constants
  import opened StoreModel
  import Store

  /** Checkpoint radius, in world units. */
  const CheckpointRadius: real := 10.0

  /** `playerPosition.distanceTo(cp) < 10`, compared on squares. */
  predicate Reached(player: Vec3, cp: Vec3)
  {
    DistanceSquared(player, cp) < CheckpointRadius * CheckpointRadius
  }

  /** The captured index names a checkpoint of the captured mission. */
  predicate HasCheckpoint(m: Mission, index: int)
  {
    0 <= index < |m.checkpoints|
  }

  /** The player is inside the captured checkpoint's radius. */
  predicate Arrives(m: Mission, index: int, player: Vec3)
  {
    HasCheckpoint(m, index) && Reached(player, m.checkpoints[index])
  }

  /** The captured checkpoint is the mission's last (or beyond it). */
  predicate IsFinal(m: Mission, index: int)
  {
    index >= |m.checkpoints| - 1
  }

  /** The store after one frame, given the captured mission id and index. */
  function Frame(s: StoreState, renderedId: Option<string>, renderedIndex: int, player: Vec3, delta: real): StoreState
  {
    var mission := FindMission(renderedId);
    if mission.None? then s
    else
      var m := mission.value;
      var t := TickMissionTimer(s, delta);
      if Arrives(m, renderedIndex, player) then
        if IsFinal(m, renderedIndex) then EndMission(AddMoney(t, m.reward))
        else NextCheckpoint(t)
      else t
  }

  /** The frame callback, run against the live store. Returns the reward announced by the
      completion alert, if the run completed in this frame. */
  method RunFrame(store: Store.GameStore, renderedId: Option<string>, renderedIndex: int, player: Vec3, delta: real)
    returns (alert: Option<int>)
    modifies store
    ensures store.Snapshot() == Frame(old(store.Snapshot()), renderedId, renderedIndex, player, delta)
    ensures alert.Some? <==>
      FindMission(renderedId).Some? && Arrives(FindMission(renderedId).value, renderedIndex, player)
      && IsFinal(FindMission(renderedId).value, renderedIndex)
    ensures alert.Some? ==> alert.value == FindMission(renderedId).value.reward
  {
    alert := None;
    var mission := FindMission(renderedId);
    if mission.None? {
      return;
    }
    var m := mission.value;
    store.TickMissionTimer(delta);
    if 0 <= renderedIndex < |m.checkpoints| {
      var cp := m.checkpoints[renderedIndex];
      if DistanceSquared(player, cp) < 100.0 {
        if renderedIndex >= |m.checkpoints| - 1 {
          store.AddMoney(m.reward);
          store.EndMission();
          alert := Some(m.reward);
        } else {
          store.NextCheckpoint();
        }
      }
    }
  }

  // ---------------------------------------------------------------------------------------------
  // One frame

  /** Without a captured mission the frame does nothing. */
  lemma NoMissionNoChange(s: StoreState, renderedId: Option<string>, renderedIndex: int, player: Vec3, delta: real)
    requires FindMission(renderedId).None?
    ensures Frame(s, renderedId, renderedIndex, player, delta) == s
  {
  }

  /** With a captured mission the timer is always ticked first, and the arrival branch never
      touches the clock; when the index names no checkpoint the tick is all that happens. */
  lemma TimerTickedFirst(s: StoreState, renderedId: Option<string>, renderedIndex: int, player: Vec3, delta: real)
    requires FindMission(renderedId).Some?
    ensures Frame(s, renderedId, renderedIndex, player, delta).missionTimeRemaining
         == TickMissionTimer(s, delta).missionTimeRemaining
    ensures !HasCheckpoint(FindMission(renderedId).value, renderedIndex) ==>
              Frame(s, renderedId, renderedIndex, player, delta) == TickMissionTimer(s, delta)
    ensures !Arrives(FindMission(renderedId).value, renderedIndex, player) ==>
              Frame(s, renderedId, renderedIndex, player, delta) == TickMissionTimer(s, delta)
  {
  }

  /** Arrival before the last checkpoint raises the store's index by exactly one and pays nothing. */
  lemma AdvanceEffect(s: StoreState, renderedId: Option<string>, renderedIndex: int, player: Vec3, delta: real)
    requires FindMission(renderedId).Some?
    requires Arrives(FindMission(renderedId).value, renderedIndex, player)
    requires !IsFinal(FindMission(renderedId).value, renderedIndex)
    ensures var r := Frame(s, renderedId, renderedIndex, player, delta);
      && r.missionCheckpointIndex == s.missionCheckpointIndex + 1
      && r.money == s.money
      && r.activeMissionId == TickMissionTimer(s, delta).activeMissionId
  {
  }

  /** Arrival at the last checkpoint adds exactly the reward and clears the run. */
  lemma CompleteEffect(s: StoreState, renderedId: Option<string>, renderedIndex: int, player: Vec3, delta: real)
    requires FindMission(renderedId).Some?
    requires Arrives(FindMission(renderedId).value, renderedIndex, player)
    requires IsFinal(FindMission(renderedId).value, renderedIndex)
    ensures var r := Frame(s, renderedId, renderedIndex, player, delta);
      && r.money == s.money + FindMission(renderedId).value.reward
      && r.activeMissionId.None? && !r.missionCompleted
      && r.missionCheckpointIndex == s.missionCheckpointIndex
      && r.ownedCars == s.ownedCars && r.carConfigs == s.carConfigs
  {
  }

  /** The radius is strict: a player exactly 10 units away has not arrived. */
  lemma RadiusIsStrict()
    ensures !Reached(Vec3(10.0, 2.0, 0.0), Vec3(0.0, 2.0, 0.0))
    ensures Reached(Vec3(9.0, 2.0, 0.0), Vec3(0.0, 2.0, 0.0))
  {
  }

  /** Delivering m2 (one checkpoint at (-300, 2, 300)) pays 1200 and clears the run. */
  lemma DeliveryExample(player: Vec3)
    requires Reached(player, Vec3(-300.0, 2.0, 300.0))
    ensures var s := StartMission(Initial, "m2", 60.0);
      var r := Frame(s, Some("m2"), 0, player, 0.016);
      r.money == 1200 && r.activeMissionId.None?
  {
    MissionTable();
  }

  /** Expiry does not win the tie: in a frame where the tick runs the clock out, the arrival test
      still runs against the captured mission and pays the reward. */
  lemma ExpiryDoesNotPreventReward(player: Vec3)
    requires Reached(player, Vec3(-300.0, 2.0, 300.0))
    ensures var s := StartMission(Initial, "m2", 0.5);
      && TickMissionTimer(s, 1.0).activeMissionId.None?
      && Frame(s, Some("m2"), 0, player, 1.0).money == 1200
  {
    MissionTable();
  }

  // ---------------------------------------------------------------------------------------------
  // Captured values versus live values

  /** The payout depends on the captured mission only: a second frame run before the component
      re-renders pays the reward again, although the store's run has already been cleared. */
  lemma StaleFramePaysTwice(s: StoreState, renderedId: Option<string>, renderedIndex: int, player: Vec3, d1: real, d2: real)
    requires FindMission(renderedId).Some?
    requires Arrives(FindMission(renderedId).value, renderedIndex, player)
    requires IsFinal(FindMission(renderedId).value, renderedIndex)
    ensures Frame(Frame(s, renderedId, renderedIndex, player, d1), renderedId, renderedIndex, player, d2).money
         == s.money + 2 * FindMission(renderedId).value.reward
  {
  }

  /** `nextCheckpoint` increments the live index, so a frame run with a stale captured index can
      push the store's index past the last checkpoint of m1. */
  lemma StaleIndexOverruns()
    ensures var s := StartMission(Initial, "m1", 45.0).(missionCheckpointIndex := 2);
      var r := Frame(s, Some("m1"), 0, Vec3(0.0, 2.0, -100.0), 0.016);
      r.missionCheckpointIndex == 3 && r.missionCheckpointIndex > |Missions[0].checkpoints| - 1
  {
    MissionTable();
  }

  // ---------------------------------------------------------------------------------------------
  // Many frames, each against the values of the latest render

  datatype FrameInput = FrameInput(player: Vec3, delta: real)

  /** Frames run one after another, each capturing the store's current id and index. */
  function Play(s: StoreState, frames: seq<FrameInput>): StoreState
    decreases |frames|
  {
    if frames == [] then s
    else
      var f := frames[0];
      Play(Frame(s, s.activeMissionId, s.missionCheckpointIndex, f.player, f.delta), frames[1..])
  }

  /** While the store's id resolves to a mission, its index names one of that mission's checkpoints. */
  predicate IndexInRange(s: StoreState)
  {
    FindMission(s.activeMissionId).Some? ==>
      0 <= s.missionCheckpointIndex <= |FindMission(s.activeMissionId).value.checkpoints| - 1
  }

  /** Starting a known mission establishes the range invariant at index 0. */
  lemma StartEstablishesRange(s: StoreState, id: string, timeLimit: real)
    requires FindMission(Some(id)).Some?
    ensures IndexInRange(StartMission(s, id, timeLimit))
    ensures StartMission(s, id, timeLimit).missionCheckpointIndex == 0
  {
    MissionTable();
  }

  lemma FrameKeepsRange(s: StoreState, f: FrameInput)
    requires IndexInRange(s)
    ensures var r := Frame(s, s.activeMissionId, s.missionCheckpointIndex, f.player, f.delta);
      IndexInRange(r) && s.missionCheckpointIndex <= r.missionCheckpointIndex <= s.missionCheckpointIndex + 1
  {
    var mission := FindMission(s.activeMissionId);
    if mission.Some? {
      var m, i := mission.value, s.missionCheckpointIndex;
      var t := TickMissionTimer(s, f.delta);
      assert t.activeMissionId == s.activeMissionId || t.activeMissionId.None?;
      assert t.missionCheckpointIndex == i;
      if Arrives(m, i, f.player) && !IsFinal(m, i) {
        assert i + 1 <= |m.checkpoints| - 1;
      }
    }
  }

  /** With a fresh capture every frame the index never decreases, rises by at most one per frame,
      and stays within [0, length - 1] of the active mission. */
  lemma {:induction false} PlayKeepsRange(s: StoreState, frames: seq<FrameInput>)
    requires IndexInRange(s)
    ensures IndexInRange(Play(s, frames))
    ensures s.missionCheckpointIndex <= Play(s, frames).missionCheckpointIndex <= s.missionCheckpointIndex + |frames|
    decreases |frames|
  {
    if frames != [] {
      FrameKeepsRange(s, frames[0]);
      PlayKeepsRange(Frame(s, s.activeMissionId, s.missionCheckpointIndex, frames[0].player, frames[0].delta), frames[1..]);
    }
  }
}
