/**
 * Ambient traffic (components/Traffic.tsx): thirty kinematic cars placed once on random roads,
 * each moving along one axis at constant speed and reversing when it is outside the city limit.
 */
module Traffic {
  import opened Geometry
  import opened Constants

  const NpcCount: nat := 30
  const LaneOffset: real := 3.5
  /** Speeds are drawn from [MinSpeed, MinSpeed + SpeedSpread). */
  const MinSpeed: real := 10.0
  const SpeedSpread: real := 15.0
  /** Height of the generated start positions, and the height written to the physics body. */
  const SpawnHeight: real := 2.0
  const BodyHeight: real := 1.0

  datatype Axis = X | Z

  /** The body's yaw: +pi/2 or -pi/2 on the x axis, 0 or pi on the z axis. */
  datatype Heading = PlusHalfPi | MinusHalfPi | Zero | Pi

  /** What the frame callback keeps per car: its axis and speed (props) and its `pos`/`dir` refs. */
  datatype Agent = Agent(axis: Axis, speed: real, pos: Vec3, dir: int)

  /** The pose written to the kinematic body each frame. */
  datatype Pose = Pose(position: Vec3, heading: Heading)

  /** The limit test of the frame: either horizontal coordinate beyond the half-extent. */
  predicate OutOfBounds(p: Vec3)
  {
    Abs(p.x) > WorldHalfExtent || Abs(p.z) > WorldHalfExtent
  }

  /** The coordinate the car moves along. */
  function AlongCoordinate(a: Agent): real
  {
    if a.axis == X then a.pos.x else a.pos.z
  }

  /** The horizontal coordinate the car never changes. */
  function CrossCoordinate(a: Agent): real
  {
    if a.axis == X then a.pos.z else a.pos.x
  }

  function Move(a: Agent, delta: real): Agent
  {
    var step := a.speed * delta * a.dir as real;
    if a.axis == X then a.(pos := a.pos.(x := a.pos.x + step))
    else a.(pos := a.pos.(z := a.pos.z + step))
  }

  /** One frame: move, then reverse if outside the limit. */
  function Tick(a: Agent, delta: real): Agent
  {
    var m := Move(a, delta);
    if OutOfBounds(m.pos) then m.(dir := -m.dir) else m
  }

  function HeadingOf(axis: Axis, dir: int): Heading
  {
    if axis == X then (if dir > 0 then PlusHalfPi else MinusHalfPi)
    else (if dir > 0 then Zero else Pi)
  }

  function PoseOf(a: Agent): Pose
  {
    Pose(Vec3(a.pos.x, BodyHeight, a.pos.z), HeadingOf(a.axis, a.dir))
  }

  /** Ticks in sequence, one delta per frame. */
  function Ticks(a: Agent, deltas: seq<real>): Agent
    decreases |deltas|
  {
    if deltas == [] then a else Ticks(Tick(a, deltas[0]), deltas[1..])
  }

  class NpcCar {
    const axis: Axis
    const speed: real
    var pos: Vec3
    var dir: int

    function State(): Agent
      reads this
    {
      Agent(axis, speed, pos, dir)
    }

    /** A car starts where it was generated, heading in the positive direction on either axis. */
    constructor (startPos: Vec3, axis: Axis, speed: real)
      ensures State() == Agent(axis, speed, startPos, 1)
    {
      this.axis := axis;
      this.speed := speed;
      pos := startPos;
      dir := 1;
    }

    /** The frame callback: returns the pose written to the physics body. */
    method Frame(delta: real) returns (pose: Pose)
      modifies this
      ensures State() == Tick(old(State()), delta)
      ensures pose == PoseOf(State())
    {
      if axis == X {
        pos := pos.(x := pos.x + speed * delta * dir as real);
      } else {
        pos := pos.(z := pos.z + speed * delta * dir as real);
      }
      var limit := (CitySize * BlockSize) as real / 2.0;
      if Abs(pos.x) > limit || Abs(pos.z) > limit {
        dir := dir * -1;
      }
      var rotY := if axis == X then (if dir > 0 then PlusHalfPi else MinusHalfPi)
                  else (if dir > 0 then Zero else Pi);
      pose := Pose(Vec3(pos.x, 1.0, pos.z), rotY);
    }
  }

  // ---------------------------------------------------------------------------------------------
  // World generation

  /** The five `Math.random()` results consumed for one car, in call order. */
  datatype TrafficDraw = TrafficDraw(horizontal: real, road: real, lane: real, along: real, speed: real)

  predicate ValidDraw(d: TrafficDraw)
  {
    InUnit(d.horizontal) && InUnit(d.road) && InUnit(d.lane) && InUnit(d.along) && InUnit(d.speed)
  }

  /** One generated car: its key, start position, axis and speed. */
  datatype NpcSpawn = NpcSpawn(id: int, pos: Vec3, axis: Axis, speed: real)

  /** `Math.floor(Math.random() * CITY_SIZE)` */
  function RoadIndex(r: real): int
  {
    (r * CitySize as real).Floor
  }

  /** The fixed coordinate of a lane: the road's line shifted back half a block, plus the lane. */
  function LaneCoordinate(roadIndex: int, laneOffset: real): real
  {
    (roadIndex * BlockSize) as real - WorldHalfExtent - BlockSize as real / 2.0 + laneOffset
  }

  function SpawnFromDraw(i: int, d: TrafficDraw): NpcSpawn
  {
    var horizontal := d.horizontal > 0.5;
    var lane := if d.lane > 0.5 then LaneOffset else -LaneOffset;
    var cross := LaneCoordinate(RoadIndex(d.road), lane);
    var along := d.along * (CitySize * BlockSize) as real - WorldHalfExtent;
    NpcSpawn(i,
             if horizontal then Vec3(along, SpawnHeight, cross) else Vec3(cross, SpawnHeight, along),
             if horizontal then X else Z,
             MinSpeed + d.speed * SpeedSpread)
  }

  /** The generation loop of TrafficSystem. */
  method GenerateTraffic(draws: seq<TrafficDraw>) returns (npcs: seq<NpcSpawn>)
    requires |draws| == NpcCount
    requires forall k :: 0 <= k < |draws| ==> ValidDraw(draws[k])
    ensures |npcs| == NpcCount
    ensures forall k :: 0 <= k < NpcCount ==> npcs[k] == SpawnFromDraw(k, draws[k])
  {
    npcs := [];
    var offset := (CitySize * BlockSize) as real / 2.0;
    var i := 0;
    while i < NpcCount
      invariant 0 <= i <= NpcCount
      invariant |npcs| == i
      invariant forall k :: 0 <= k < i ==> npcs[k] == SpawnFromDraw(k, draws[k])
    {
      var d := draws[i];
      var isHorizontal := d.horizontal > 0.5;
      var roadIndex := (d.road * CitySize as real).Floor;
      var laneOffset := if d.lane > 0.5 then 3.5 else -3.5;
      var x, z := 0.0, 0.0;
      if isHorizontal {
        z := (roadIndex * BlockSize) as real - offset - BlockSize as real / 2.0 + laneOffset;
        x := d.along * CitySize as real * BlockSize as real - offset;
      } else {
        x := (roadIndex * BlockSize) as real - offset - BlockSize as real / 2.0 + laneOffset;
        z := d.along * CitySize as real * BlockSize as real - offset;
      }
      npcs := npcs + [NpcSpawn(i, Vec3(x, 2.0, z), if isHorizontal then X else Z, 10.0 + d.speed * 15.0)];
      i := i + 1;
    }
  }

  /** The car a generated entry mounts. */
  function AgentOf(n: NpcSpawn): Agent
  {
    Agent(n.axis, n.speed, n.pos, 1)
  }

  // ---------------------------------------------------------------------------------------------
  // Properties

  /** Every generated car: speed in [10, 25), start on its axis in [-450, 450), and the fixed
      coordinate on road r's lane, r * 60 - 480 +/- 3.5 with r in 0..14. */
  lemma SpawnRanges(i: int, d: TrafficDraw)
    requires ValidDraw(d)
    ensures var n := SpawnFromDraw(i, d);
      && n.id == i && n.pos.y == 2.0
      && 10.0 <= n.speed < 25.0
      && 0 <= RoadIndex(d.road) <= 14
      && var a := AgentOf(n);
         -450.0 <= AlongCoordinate(a) < 450.0
         && (CrossCoordinate(a) == (RoadIndex(d.road) * 60) as real - 480.0 + 3.5
             || CrossCoordinate(a) == (RoadIndex(d.road) * 60) as real - 480.0 - 3.5)
  {
    var r := d.road * 15.0;
    assert 0.0 <= r < 15.0;
    assert RoadIndex(d.road) == r.Floor;
  }

  /** Road 0 lies outside the city limit: its lanes are at -483.5 and -476.5. */
  lemma RoadZeroOutside(laneOffset: real)
    requires laneOffset == LaneOffset || laneOffset == -LaneOffset
    ensures LaneCoordinate(0, laneOffset) == -483.5 || LaneCoordinate(0, laneOffset) == -476.5
    ensures Abs(LaneCoordinate(0, laneOffset)) > WorldHalfExtent
  {
  }

  /** A tick moves the car by exactly speed * delta * dir along its axis and by nothing across. */
  lemma TickMoves(a: Agent, delta: real)
    ensures AlongCoordinate(Tick(a, delta)) == AlongCoordinate(a) + a.speed * delta * a.dir as real
    ensures CrossCoordinate(Tick(a, delta)) == CrossCoordinate(a)
    ensures Tick(a, delta).pos.y == a.pos.y
    ensures Tick(a, delta).axis == a.axis && Tick(a, delta).speed == a.speed
  {
  }

  /** The direction flips exactly when the moved car is outside the limit; a coordinate exactly
      at 450 is inside. */
  lemma FlipIff(a: Agent, delta: real)
    requires a.dir == 1 || a.dir == -1
    ensures Tick(a, delta).dir == -a.dir <==> OutOfBounds(Move(a, delta).pos)
    ensures Tick(a, delta).dir == 1 || Tick(a, delta).dir == -1
    ensures !OutOfBounds(Vec3(450.0, 2.0, -450.0))
  {
  }

  /** The direction is always +1 or -1. */
  lemma {:induction false} DirectionIsUnit(a: Agent, deltas: seq<real>)
    requires a.dir == 1 || a.dir == -1
    ensures Ticks(a, deltas).dir == 1 || Ticks(a, deltas).dir == -1
    decreases |deltas|
  {
    if deltas != [] {
      FlipIff(a, deltas[0]);
      DirectionIsUnit(Tick(a, deltas[0]), deltas[1..]);
    }
  }

  /** A car whose fixed coordinate is outside the limit reverses on every tick, so after n ticks
      its direction is the start direction times (-1)^n and it never leaves its lane. */
  lemma {:induction false} OutsideCarFlipsEveryTick(a: Agent, deltas: seq<real>)
    requires Abs(CrossCoordinate(a)) > WorldHalfExtent
    ensures Ticks(a, deltas).dir == (if |deltas| % 2 == 0 then a.dir else -a.dir)
    ensures CrossCoordinate(Ticks(a, deltas)) == CrossCoordinate(a)
    decreases |deltas|
  {
    if deltas != [] {
      var b := Tick(a, deltas[0]);
      assert CrossCoordinate(b) == CrossCoordinate(a);
      assert b.dir == -a.dir;
      OutsideCarFlipsEveryTick(b, deltas[1..]);
    }
  }

  /** A car on the x axis one unit inside the limit, at speed 10 with a one-second tick, reverses
      once and not again on the next tick. */
  lemma BounceOnceExample()
    ensures var a := Agent(X, 10.0, Vec3(449.0, 2.0, 0.0), 1);
      var b := Tick(a, 1.0);
      b.dir == -1 && b.pos.x == 459.0 && Tick(b, 1.0).dir == -1 && Tick(b, 1.0).pos.x == 449.0
  {
  }

  /** The body sits at height 1 and faces its direction of travel. */
  lemma PoseFacing(a: Agent)
    ensures PoseOf(a).position.y == BodyHeight
    ensures a.axis == X ==> (PoseOf(a).heading == PlusHalfPi <==> a.dir > 0)
    ensures a.axis == X ==> PoseOf(a).heading in {PlusHalfPi, MinusHalfPi}
    ensures a.axis == Z ==> (PoseOf(a).heading == Zero <==> a.dir > 0)
    ensures a.axis == Z ==> PoseOf(a).heading in {Zero, Pi}
  {
  }
}
