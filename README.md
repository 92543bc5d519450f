# Street Bound: the per-frame game logic, modelled in Dafny

Street Bound is an arcade driving game. A player drives through a block city, runs timed
checkpoint missions for money, and buys and customises cars. Traffic and weather run in the
background. Rendering, rigid-body physics and the menus wrap around a small core of sequential
game logic. This project models that core and proves properties of it:

- **Game/economy store** (`store.ts`). The zustand store holds money, owned cars, the selected
  car, per-car configs, the game mode, the speed flags and the mission-run fields.
  - `StoreModel` gives the state as a record, with one transition function per action.
  - `Store.GameStore` is the mutable store. Each method is proved to move the store's snapshot
    exactly as the matching transition does.
- **Mission frame** (`components/MissionManager.tsx`). `MissionManager.RunFrame` runs the frame
  callback against a live `GameStore`. It sees the mission and checkpoint index captured at the
  last render: it ticks the timer, tests the player against the captured checkpoint (squared
  distance below 100), then either advances the index or pays the reward and ends the run.
- **Tire-smoke pool** (`components/PlayerCar.tsx`, the `TireSmoke` component).
  `TireSmoke.SmokePool` holds a fixed `array<Particle>` of 50 and the shared dummy object's scale.
  - Spawning uses a first-dead-slot scan for rear wheels 2 and 3.
  - Ageing fades, moves and grows the live particles.
  - Each frame returns the instance matrices it writes.
- **Traffic** (`components/Traffic.tsx`). `Traffic.NpcCar` is one kinematic car: it moves along
  its axis and reverses outside the city limit. `Traffic.GenerateTraffic` is the world-generation
  loop that places the 30 cars.
- **Weather** (`components/WeatherSystem.tsx`). This covers the stateless resample, the fog and
  light tables, and the stride-3 rain animation over the flat position buffer.
- **Constants** (`constants.ts`). The car and mission tables, the city geometry and the speed
  thresholds.
- **Controls** (`input.ts`). Six control flags, `setControl`, and the key table used by the
  keydown/keyup listeners.

Numbers are Dafny `real`s, except money, prices and rewards, which are integers in the source.
`Math.random()`, the frame `delta`, wheel world positions and mount states are parameters. A
random draw is required to lie in [0, 1) and a frame delta to be non-negative.

The model follows the code as written, including where it departs from what the game evidently
intends:

- `selectCar` checks neither ownership nor existence, so "the selected car is owned" is not an
  invariant (`StoreModel.SelectUnownedExample`).
- `startMission` does not validate the id.
- Mission expiry does not win over arrival in the same frame
  (`MissionManager.ExpiryDoesNotPreventReward`).
- A traffic car whose fixed coordinate is outside the limit reverses on every tick instead of
  bouncing once (`Traffic.OutsideCarFlipsEveryTick`). Road index 0 places cars there.
- No action ever sets `missionCompleted` (`StoreModel.MissionCompletedNeverSet`).

## Model

| member | source | states |
|---|---|---|
| Constants.FindIn | store.ts:78 | `find` by id, used for `CARS.find` here and `MISSIONS.find` in the mission frame: a result is an entry with that id; no result exactly when no entry has the id |
| Constants.CarIdsUnique | constants.ts:35-84 | the four car ids are pairwise distinct |
| Constants.FindFirst | components/MissionManager.tsx:16 | `find` returns the first entry holding the id, for the mission lookup as for the car lookup |
| Constants.CarLookup | constants.ts:35-84 | every catalogue id resolves to its own entry; its price is non-negative and its colour is set |
| Constants.MissionTable | constants.ts:96-136 | mission ids are distinct; every mission has at least one checkpoint; m1 has 3 checkpoints, reward 500 and limit 45; m2 has one checkpoint (-300,2,300), reward 1200 and limit 60; a null or empty id resolves to nothing |
| Constants.WorldConstants | constants.ts:1-2 | the world half-extent CITY_SIZE*BLOCK_SIZE/2 is 450 |
| Constants.StyleCounts | constants.ts:18-19 | 4 rim styles and 3 spoiler types |
| Constants.SpeedThresholds | constants.ts:146-147 | SPEED_LIMIT is 60 and POLICE_THRESHOLD is 75 |
| StoreModel.BuyCarEffect | store.ts:77-87 | buyCar changes the state iff the car exists, is affordable and is not owned; it then deducts the price, appends and selects the id, and changes nothing else |
| StoreModel.BuyCarKeepsBalanceAndOwnership | store.ts:79-82 | a purchase keeps a non-negative balance non-negative, keeps every owned car and adds no duplicate |
| StoreModel.BuySportExample | store.ts:77-87 | 'sport' with 8000 leaves money 0, owns and selects 'sport'; with 7999 the state is unchanged |
| StoreModel.InitialOwnership | store.ts:58-60 | the initial store owns only 'starter' and selects it |
| StoreModel.ApplyKeepsOwnership | store.ts:76-140 | every action keeps 'starter' owned, adds no duplicate and removes no owned car |
| StoreModel.RunKeepsOwnership | store.ts:76-140 | along any sequence of actions, owned cars only grow, 'starter' stays owned and no car is owned twice |
| StoreModel.RunKeepsBalance | store.ts:76-87 | along any sequence of actions whose credits are non-negative, a non-negative balance stays non-negative |
| StoreModel.SelectCarIgnoresOwnership | store.ts:88 | selectCar sets any id and leaves ownership alone, so an unowned id ends up selected |
| StoreModel.SelectUnownedExample | store.ts:88 | from the initial store, selecting 'super' gives a selected car that is not owned |
| StoreModel.UpdateCarConfigEffect | store.ts:90-98 | the car's config becomes its existing (or default) config overridden by exactly the given fields; other cars' configs and all other state are unchanged |
| StoreModel.DefaultConfigExamples | store.ts:94 | the default is the catalogue colour (or '#fff' for an unknown id) with rim 0 and spoiler 0 |
| StoreModel.SetSpeedFlag | store.ts:103-106 | after setSpeed(v), isSpeeding holds iff the mode is PLAYING and v > 75 (= POLICE_THRESHOLD); only speed and the flag change |
| StoreModel.StartMissionEffect | store.ts:110-116 | startMission sets the id (unvalidated), index 0, the time limit, completed false and PLAYING; the persisted fields are unchanged |
| StoreModel.TickMissionTimerEffect | store.ts:122-130 | no active id or a completed run: no change; time minus delta <= 0: time 0 and the id cleared; otherwise time drops by delta; nothing else changes |
| StoreModel.TimeoutExample | store.ts:122-130 | a 45 s run ticked by deltas summing to 45 ends with time 0, no active id and no reward |
| StoreModel.EndAndResetKeepSave | store.ts:132-149 | endMission and resetRuntime clear the active id and leave money, owned cars, selection and configs alone |
| StoreModel.RuntimeActionsKeepSave | store.ts:144-149 | only addMoney, buyCar, selectCar and updateCarConfig change the persisted projection |
| StoreModel.MissionCompletedNeverSet | store.ts:110-132 | no sequence of actions sets missionCompleted once it is false |
| Store.GameStore.constructor | store.ts:57-74 | the store starts in the initial state |
| Store.GameStore.AddMoney | store.ts:76 | adds the amount, unconditionally |
| Store.GameStore.BuyCar | store.ts:77-87 | performs the guarded purchase of StoreModel.BuyCar in place |
| Store.GameStore.SelectCar | store.ts:88 | sets the selected id, unchecked |
| Store.GameStore.UpdateCarConfig | store.ts:90-98 | merges the partial config onto the existing or default config |
| Store.GameStore.SetGameState | store.ts:100 | sets the mode |
| Store.GameStore.SetWeather | store.ts:101 | sets the weather |
| Store.GameStore.SetSpeed | store.ts:103-106 | sets the speed and the speeding flag |
| Store.GameStore.StartMission | store.ts:110-116 | overwrites the run fields and switches to PLAYING |
| Store.GameStore.NextCheckpoint | store.ts:118-120 | raises the live index by one, with no bound |
| Store.GameStore.TickMissionTimer | store.ts:122-130 | performs the timer transition in place |
| Store.GameStore.EndMission | store.ts:132 | clears the id and the completed flag |
| Store.GameStore.ResetRuntime | store.ts:134-140 | zeroes speed and wanted fields and clears the id |
| Store.GameStore.Partialize | store.ts:144-149 | the persisted object is exactly money, owned cars, selection and configs |
| MissionManager.RunFrame | components/MissionManager.tsx:18-41 | one frame moves the store as MissionManager.Frame; the completion alert fires exactly on arrival at the final checkpoint and announces the reward |
| MissionManager.NoMissionNoChange | components/MissionManager.tsx:16-19 | when the captured id resolves to no mission the frame changes nothing |
| MissionManager.TimerTickedFirst | components/MissionManager.tsx:21-25 | with a mission the timer is ticked first and the arrival step never touches the clock; with no checkpoint at the index, or no arrival, the tick is all that happens |
| MissionManager.RadiusIsStrict | components/MissionManager.tsx:26-30 | a player exactly 10 units away has not arrived; 9 units away has |
| MissionManager.AdvanceEffect | components/MissionManager.tsx:31-37 | arriving at a checkpoint before the last raises the store's index by exactly 1 and pays nothing |
| MissionManager.CompleteEffect | components/MissionManager.tsx:31-34 | arriving at the last checkpoint adds exactly the reward, clears the active id and leaves the index and garage alone |
| MissionManager.DeliveryExample | components/MissionManager.tsx:24-34 | reaching m2's only checkpoint pays 1200 and clears the run |
| MissionManager.ExpiryDoesNotPreventReward | components/MissionManager.tsx:16-34 | in a frame whose tick expires the run, arrival at the captured final checkpoint still pays the reward |
| MissionManager.StaleFramePaysTwice | components/MissionManager.tsx:16-34 | the payout depends only on the captured mission: two frames against the same capture pay twice |
| MissionManager.StaleIndexOverruns | components/MissionManager.tsx:37 | nextCheckpoint raises the live index, so a stale captured index pushes m1's index to 3, past its last checkpoint |
| MissionManager.StartEstablishesRange | components/MissionManager.tsx:31-37 | starting a known mission gives index 0 within the checkpoint range |
| MissionManager.FrameKeepsRange | components/MissionManager.tsx:31-37 | with a fresh capture, a frame keeps the index within [0, length-1] and raises it by 0 or 1 |
| MissionManager.PlayKeepsRange | components/MissionManager.tsx:31-37 | over any sequence of freshly captured frames the index never decreases, rises by at most one per frame and stays within [0, length-1] |
| TireSmoke.Step | components/PlayerCar.tsx:61 | the step is min(delta, 0.1) |
| TireSmoke.Spawned | components/PlayerCar.tsx:75-83 | a spawned particle has life 1, y 0.2 under the wheel, scale in [0.5,1), velocity x,z in [-1,1) and y in [0,1.5) |
| TireSmoke.FirstDeadFrom | components/PlayerCar.tsx:69 | the scan finds the lowest index with life <= 0, or proves that every particle is alive |
| TireSmoke.SmokePool.constructor | components/PlayerCar.tsx:46-56 | the pool holds exactly 50 particles, each with life 0, scale 0 and position (0,-1000,0); the dummy scale starts at 1 |
| TireSmoke.SmokePool.FindDead | components/PlayerCar.tsx:69 | the linear scan returns the lowest dead slot, or none when all 50 are alive |
| TireSmoke.SmokePool.SpawnFromWheel | components/PlayerCar.tsx:65-84 | one wheel's spawn rewrites the pool as SpawnAt: the lowest dead slot gets the spawned particle; with no wheel or no dead slot the pool is unchanged |
| TireSmoke.SmokePool.Update | components/PlayerCar.tsx:90-112 | the ageing pass ages every slot in place, writes one matrix per slot (a live slot at its new position with scale*max(0,life); a dead slot parked with the dummy's leftover scale) and keeps every scale non-negative |
| TireSmoke.SmokePool.Frame | components/PlayerCar.tsx:58-114 | nothing happens while the mesh is unmounted: particles, dummy scale and drawn matrices are all unchanged; otherwise the gated spawn for wheels 2 and 3 runs, then the ageing pass with step min(delta, 0.1), and the dummy is left with the drawn scale of the last slot that was alive before ageing (or its old scale if none was), which the next frame's dead slots inherit |
| TireSmoke.AliveCountBound | components/PlayerCar.tsx:48 | the live count never exceeds the pool size, and equals it exactly when every slot is alive |
| TireSmoke.SpawnAtCount | components/PlayerCar.tsx:69-77 | a spawn keeps the pool size and revives exactly one particle when the wheel is mounted and a dead slot exists, otherwise none |
| TireSmoke.SpawnAtSlot | components/PlayerCar.tsx:69-70 | the spawn reuses the lowest dead slot and changes no live particle; with no dead slot the pool is unchanged |
| TireSmoke.TwoSpawnsDistinct | components/PlayerCar.tsx:65-77 | the second wheel's scan finds a strictly later slot than the first wheel's |
| TireSmoke.NoSpawnBelowGate | components/PlayerCar.tsx:64 | without braking, or at |speed| <= 20, the spawn step leaves the pool unchanged |
| TireSmoke.AgeEffect | components/PlayerCar.tsx:91-95 | a live particle loses dt of life, moves by velocity*dt and grows by 3*dt; a dead particle keeps all its fields |
| TireSmoke.DrawnScalesNonNegative | components/PlayerCar.tsx:100-110 | every matrix written has a non-negative scale, and a dead slot is drawn at (0,-1000,0) |
| TireSmoke.SmokeLook | components/PlayerCar.tsx:116-117 | the smoke is '#d1d5db' at opacity 0.3 exactly in rain, and '#6b7280' at 0.5 otherwise |
| Traffic.NpcCar.constructor | components/Traffic.tsx:19-20 | a car starts at its generated position with direction +1 on either axis |
| Traffic.NpcCar.Frame | components/Traffic.tsx:22-41 | one frame moves the car as Traffic.Tick and writes the pose at height 1 with the heading of its new direction |
| Traffic.GenerateTraffic | components/Traffic.tsx:52-82 | generation yields exactly 30 cars, car k built from draw k |
| Traffic.SpawnRanges | components/Traffic.tsx:56-79 | each car has speed in [10,25), along-axis start in [-450,450), road index 0..14, and a fixed coordinate of roadIndex*60 - 480 +/- 3.5 |
| Traffic.RoadZeroOutside | components/Traffic.tsx:66-70 | road 0's lanes are at -483.5 and -476.5, outside the 450 limit |
| Traffic.TickMoves | components/Traffic.tsx:24-28 | a tick moves the along-axis coordinate by exactly speed*delta*dir and leaves the other coordinates unchanged |
| Traffic.FlipIff | components/Traffic.tsx:31-35 | the direction flips iff, after moving, |x| > 450 or |z| > 450; a coordinate at exactly 450 does not flip; the direction stays +1 or -1 |
| Traffic.DirectionIsUnit | components/Traffic.tsx:20-34 | over any number of ticks the direction is +1 or -1 |
| Traffic.OutsideCarFlipsEveryTick | components/Traffic.tsx:32-34 | a car whose fixed coordinate is outside the limit reverses on every tick: after n ticks its direction is the start direction times (-1)^n |
| Traffic.BounceOnceExample | components/Traffic.tsx:24-35 | a car at x=449 moving +x at speed 10 reverses once after a 1 s tick, to x=459, and does not reverse again on the next tick |
| Traffic.PoseFacing | components/Traffic.tsx:37-40 | the written height is 1; the heading is +-pi/2 on the x axis and 0/pi on the z axis, chosen by the sign of dir |
| WeatherSystem.Resample | components/WeatherSystem.tsx:16-19 | r < 0.4 gives SUNNY, 0.4 <= r < 0.7 gives RAIN, r >= 0.7 gives FOG, each as an iff |
| WeatherSystem.Cycle | components/WeatherSystem.tsx:15-20 | a timer firing overwrites the store's weather with the resample of the draw |
| WeatherSystem.ResampleIsStateless | components/WeatherSystem.tsx:15-20 | the new weather depends only on the draw and nothing else in the store changes; the current weather can be drawn again |
| WeatherSystem.ResampleReachesEvery | components/WeatherSystem.tsx:16-19 | every weather is drawn by some r in [0,1) |
| WeatherSystem.VisibilityOrder | components/WeatherSystem.tsx:66-94 | fog near < far; FOG sees less far than RAIN, RAIN less than SUNNY; ambient 0.6 and directional 1 exactly when SUNNY, else 0.3 and 0.4 |
| WeatherSystem.InitRain | components/WeatherSystem.tsx:28-38 | a mounted geometry gets 10000 drops, index j drawn from draw j; an unmounted one keeps the zero-filled buffer |
| WeatherSystem.InitialBounds | components/WeatherSystem.tsx:31-35 | initial drops have x,z in [-200,200) and y in [0,200) |
| WeatherSystem.AnimateRain | components/WeatherSystem.tsx:44-51 | the buffer changes only while raining and mounted, and then exactly as RainStep |
| WeatherSystem.RainStepEffect | components/WeatherSystem.tsx:46-50 | after a rain frame every y (index = 1 mod 3) is >= 0, equal to y - 50*delta unless that was negative; x and z are untouched |
| Input.Controls.constructor | input.ts:18-23 | all six controls start false |
| Input.Controls.SetControl | input.ts:24 | the named control takes the value; the other five keep theirs |
| Input.KeyDown | input.ts:43-45 | a mapped key sets its control true; an unmapped key changes nothing |
| Input.KeyUp | input.ts:46-48 | a mapped key sets its control false; an unmapped key changes nothing |
| Input.KeyBindings | input.ts:29-40 | ArrowUp/w map to forward, ArrowDown/s to backward, ArrowLeft/a to left, ArrowRight/d to right, space to brake, r to reset |
| Input.UnboundKeys | input.ts:29-40 | matching is case-sensitive: 'W', 'R' and 'Shift' are unbound |
| Input.EveryControlHasKey | input.ts:29-40 | each of the six controls has at least one key |

## Left out

- The vehicle force controller of the player car is not part of this model: the source of
  components/PlayerCar.tsx is cut off after the smoke colour and opacity.
- Rendering and physics calls are modelled as outputs: the completion alert is
  `RunFrame`'s result, the smoke's `setMatrixAt` writes are `Frame`'s instance list, and a
  traffic car's `api.position`/`api.rotation` writes are its `Pose`. The rain points following
  the camera (components/WeatherSystem.tsx:55-59), the checkpoint markers, the fog/light JSX and
  the physics body settings (mass, damping, kinematic type) are not modelled.
- Floating point: all arithmetic is exact over the reals. Float32 rounding of the rain buffer is
  not modelled, the distance test compares squares instead of taking a square root, and headings
  are an enumeration instead of multiples of `Math.PI`.
- Timing and randomness: `setInterval`, `useFrame` scheduling and `Math.random()` are parameters.
  When React re-renders is not modelled either: the mission frame takes the captured mission id
  and index as inputs, and `PlayKeepsRange` assumes a fresh capture before every frame.
- Persistence: the zustand `persist`/localStorage mechanics and rehydration are not modelled,
  only the `partialize` projection.
- `setWantedLevel` and the wanted timer are plain setters with no behaviour, so they are left out.
  The fields stay because `resetRuntime` clears them. The `time` state of the weather component
  only counts elapsed time, so it is left out too.
- JavaScript object-key quirks are not modelled. Inherited property names such as "toString" in
  the `keys` table or the `carConfigs` record are ignored, and so is a `Partial<CarConfig>` that
  carries an explicit `undefined` field.
- Money is an integer, because every amount the game adds or charges is one.
- The menus, the mobile touch controls, the app shell and the scene composition are
  presentation. The only ownership check in them, showing Select only for owned cars, is UI
  gating and not part of the store.
