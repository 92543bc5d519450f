/**
 * The game's static tables: the city geometry, the enumerations shared by the store and the
 * per-frame systems, the purchasable cars, the missions and the speed thresholds (constants.ts).
 */
module Constants {
  import opened Wrappers
  import opened Geometry

  const CitySize: int := 15
  const BlockSize: int := 60
  const RoadWidth: int := 14

  /** `(CITY_SIZE * BLOCK_SIZE) / 2`: the half-extent of the square world, used as the traffic limit. */
  const WorldHalfExtent: real := (CitySize * BlockSize) as real / 2.0

  datatype GameState = Menu | Playing | Garage | GameOver

  datatype WeatherType = Sunny | Rain | Fog

  const RimStyles: seq<string> := ["Standard", "Sport", "Blade", "Solid"]
  const SpoilerTypes: seq<string> := ["None", "Lip", "GT Wing"]

  datatype CarStats = CarStats(
    id: string,
    name: string,
    price: int,
    speed: real,         // top-speed multiplier
    acceleration: real,  // force multiplier
    handling: real,      // steering speed
    color: string,       // default paint colour
    width: real,
    length: real,
    height: real)

  const Cars: seq<CarStats> := [
    CarStats("starter", "Compact Hatch", 0, 60.0, 15.0, 0.6, "#3b82f6", 1.8, 3.5, 1.4),
    CarStats("sedan", "Family Sedan", 2500, 80.0, 20.0, 0.5, "#ef4444", 2.0, 4.2, 1.45),
    CarStats("sport", "Street Racer", 8000, 120.0, 35.0, 0.8, "#eab308", 2.1, 4.0, 1.2),
    CarStats("super", "Velocita X", 25000, 180.0, 50.0, 0.9, "#10b981", 2.2, 4.4, 1.1)
  ]

  datatype MissionType = Race | Delivery

  datatype Mission = Mission(
    id: string,
    title: string,
    description: string,
    kind: MissionType,
    reward: int,
    timeLimit: int,
    checkpoints: seq<Vec3>)

  const Missions: seq<Mission> := [
    Mission("m1", "City Sprint", "Race to the park downtown within the time limit.", Race, 500, 45,
            [Vec3(0.0, 2.0, -100.0), Vec3(100.0, 2.0, -200.0), Vec3(0.0, 2.0, -300.0)]),
    Mission("m2", "High Speed Delivery", "Deliver the package to the outskirts. Do not stop.", Delivery, 1200, 60,
            [Vec3(-300.0, 2.0, 300.0)]),
    Mission("m3", "Downtown Loop", "A technical checkpoint race through the city center.", Race, 800, 90,
            [Vec3(100.0, 2.0, 100.0), Vec3(100.0, 2.0, -100.0), Vec3(-100.0, 2.0, -100.0),
             Vec3(-100.0, 2.0, 100.0), Vec3(0.0, 2.0, 0.0)])
  ]

  const SpeedLimit: int := 60
  const PoliceThreshold: int := SpeedLimit + 15

  /** `Array.prototype.find` by an id: the first entry whose key is the id, if any. */
  function FindIn<T>(xs: seq<T>, key: T -> string, id: string): (r: Option<T>)
    ensures r.Some? ==> r.value in xs && key(r.value) == id
    ensures r.None? <==> forall k :: 0 <= k < |xs| ==> key(xs[k]) != id
  {
    if xs == [] then None
    else if key(xs[0]) == id then Some(xs[0])
    else FindIn(xs[1..], key, id)
  }

  /** `find` returns the first match: the entry at k when k holds the id and no earlier entry does. */
  lemma {:induction false} FindFirst<T>(xs: seq<T>, key: T -> string, k: int, id: string)
    requires 0 <= k < |xs| && key(xs[k]) == id
    requires forall j :: 0 <= j < k ==> key(xs[j]) != id
    ensures FindIn(xs, key, id) == Some(xs[k])
    decreases k
  {
    if k > 0 {
      assert xs[1..][k - 1] == xs[k];
      FindFirst(xs[1..], key, k - 1, id);
    }
  }

  function CarId(c: CarStats): string
  {
    c.id
  }

  function MissionId(m: Mission): string
  {
    m.id
  }

  /** `CARS.find(c => c.id === id)` */
  function FindCar(id: string): Option<CarStats>
  {
    FindIn(Cars, CarId, id)
  }

  /** `MISSIONS.find(m => m.id === id)`; a null id matches no mission. */
  function FindMission(id: Option<string>): Option<Mission>
  {
    if id.None? then None else FindIn(Missions, MissionId, id.value)
  }

  lemma CarIdsUnique()
    ensures forall i, j :: 0 <= i < j < |Cars| ==> Cars[i].id != Cars[j].id
  {
    assert Cars[0].id[1] == 't' && Cars[1].id[1] == 'e' && Cars[2].id[1] == 'p' && Cars[3].id[1] == 'u';
  }

  /** Every catalogue id resolves to its own entry, whose price is non-negative and whose colour
      is set. */
  lemma CarLookup(k: int)
    requires 0 <= k < |Cars|
    ensures FindCar(Cars[k].id) == Some(Cars[k])
    ensures Cars[k].price >= 0 && Cars[k].color != ""
  {
    CarIdsUnique();
    FindFirst(Cars, CarId, k, Cars[k].id);
  }

  lemma MissionTable()
    ensures forall i, j :: 0 <= i < j < |Missions| ==> Missions[i].id != Missions[j].id
    ensures forall m :: m in Missions ==> |m.checkpoints| >= 1 && m.reward > 0 && m.timeLimit > 0
    ensures FindMission(Some("m1")) == Some(Missions[0])
    ensures |Missions[0].checkpoints| == 3 && Missions[0].reward == 500 && Missions[0].timeLimit == 45
    ensures FindMission(Some("m2")) == Some(Missions[1])
    ensures Missions[1].checkpoints == [Vec3(-300.0, 2.0, 300.0)]
    ensures Missions[1].reward == 1200 && Missions[1].timeLimit == 60
    ensures FindMission(Some("m3")) == Some(Missions[2])
    ensures FindMission(None) == None && FindMission(Some("")) == None
  {
  }

  /** The world half-extent used as the traffic limit is 15 * 60 / 2 = 450. */
  lemma WorldConstants()
    ensures WorldHalfExtent == 450.0
    ensures WorldHalfExtent == (CitySize * BlockSize / 2) as real
  {
  }

  /** Four rim styles and three spoiler types: valid style indices are 0..3 and 0..2. */
  lemma StyleCounts()
    ensures |RimStyles| == 4 && |SpoilerTypes| == 3
    ensures SpoilerTypes[0] == "None"
  {
  }

  /** The police threshold is 15 over the speed limit, 75: the value the store's speeding flag
      compares against. */
  lemma SpeedThresholds()
    ensures SpeedLimit == 60 && PoliceThreshold == 75
  {
  }
}
