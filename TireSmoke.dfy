/**
 * The tire-smoke particle pool of the player car (the TireSmoke component in
 * components/PlayerCar.tsx): fifty particles allocated once, revived by a first-dead-slot scan
 * under the rear wheels while braking fast, and aged every frame.
 */
module TireSmoke {
  import opened Wrappers
  import opened Geometry
  import opened Constants

  const PoolSize: nat := 50
  /** Spawning needs `|speed|` strictly above this. */
  const SpawnSpeed: real := 20.0
  /** Frame steps are clamped to this many seconds. */
  const MaxStep: real := 0.1
  const FadeRate: real := 1.0
  const GrowRate: real := 3.0
  /** Height at which new smoke appears. */
  const GroundY: real := 0.2
  /** Where a dead particle waits and where a dead slot is drawn. */
  const Parked: Vec3 := Vec3(0.0, -1000.0, 0.0)

  datatype Particle = Particle(position: Vec3, velocity: Vec3, scale: real, life: real)

  /** The state every slot starts in. */
  const Dead: Particle := Particle(Parked, Origin, 0.0, 0.0)

  /** One instance matrix written to the mesh: translation and uniform scale (rotation is 0). */
  datatype Instance = Instance(position: Vec3, scale: real)

  /** The four `Math.random()` results one spawn consumes, in call order. */
  datatype SmokeDraw = SmokeDraw(scale: real, vx: real, vy: real, vz: real)

  predicate Alive(p: Particle)
  {
    p.life > 0.0
  }

  predicate ValidDraw(d: SmokeDraw)
  {
    InUnit(d.scale) && InUnit(d.vx) && InUnit(d.vy) && InUnit(d.vz)
  }

  function Max0(x: real): (r: real)
    ensures r >= 0.0 && r >= x
  {
    if x > 0.0 then x else 0.0
  }

  /** `Math.min(delta, 0.1)` */
  function Step(delta: real): (dt: real)
    ensures dt <= MaxStep && dt <= delta && (dt == delta || dt == MaxStep)
  {
    if delta < MaxStep then delta else MaxStep
  }

  /** Braking and faster than 20 in either direction. */
  predicate SpawnGate(braking: bool, speed: real)
  {
    braking && Abs(speed) > SpawnSpeed
  }

  /** A particle revived under a wheel: full life, on the ground below the wheel, random size and
      drift. */
  function Spawned(wheel: Vec3, d: SmokeDraw): (p: Particle)
    requires ValidDraw(d)
    ensures Alive(p) && p.life == 1.0
    ensures p.position.x == wheel.x && p.position.y == GroundY && p.position.z == wheel.z
    ensures 0.5 <= p.scale < 1.0
    ensures -1.0 <= p.velocity.x < 1.0 && 0.0 <= p.velocity.y < 1.5 && -1.0 <= p.velocity.z < 1.0
  {
    Particle(Vec3(wheel.x, GroundY, wheel.z),
             Vec3((d.vx - 0.5) * 2.0, d.vy * 1.5, (d.vz - 0.5) * 2.0),
             0.5 + d.scale * 0.5,
             1.0)
  }

  /** The lowest index at or after `from` whose particle is dead. */
  function FirstDeadFrom(ps: seq<Particle>, from: nat): (r: Option<nat>)
    requires from <= |ps|
    ensures r.Some? ==> from <= r.value < |ps| && !Alive(ps[r.value])
                        && forall j :: from <= j < r.value ==> Alive(ps[j])
    ensures r.None? ==> forall j :: from <= j < |ps| ==> Alive(ps[j])
    decreases |ps| - from
  {
    if from == |ps| then None
    else if !Alive(ps[from]) then Some(from)
    else FirstDeadFrom(ps, from + 1)
  }

  /** `particles.find(part => part.life <= 0)`, as an index. */
  function FirstDead(ps: seq<Particle>): Option<nat>
  {
    FirstDeadFrom(ps, 0)
  }

  /** One wheel's spawn: revive the first dead slot, or drop the spawn when the wheel is not
      mounted or every slot is alive. */
  function SpawnAt(ps: seq<Particle>, wheel: Option<Vec3>, d: SmokeDraw): seq<Particle>
    requires ValidDraw(d)
  {
    if wheel.None? then ps
    else
      match FirstDead(ps)
      case None => ps
      case Some(i) => ps[i := Spawned(wheel.value, d)]
  }

  /** The spawn step of a frame: rear wheels 2 then 3, only past the gate. */
  function SpawnPhase(ps: seq<Particle>, braking: bool, speed: real,
                      wheel2: Option<Vec3>, wheel3: Option<Vec3>, d2: SmokeDraw, d3: SmokeDraw): seq<Particle>
    requires ValidDraw(d2) && ValidDraw(d3)
  {
    if SpawnGate(braking, speed) then SpawnAt(SpawnAt(ps, wheel2, d2), wheel3, d3) else ps
  }

  /** One frame of ageing for one particle: only live particles fade, drift and grow. */
  function Age(p: Particle, dt: real): Particle
  {
    if Alive(p) then
      Particle(AddScaled(p.position, p.velocity, dt), p.velocity, p.scale + dt * GrowRate, p.life - dt * FadeRate)
    else p
  }

  function UpdateAll(ps: seq<Particle>, dt: real): (r: seq<Particle>)
    ensures |r| == |ps|
  {
    seq(|ps|, i requires 0 <= i < |ps| => Age(ps[i], dt))
  }

  /** The visibility factor: the particle's size shrinks to nothing as its life runs out. */
  function DrawScale(p: Particle): real
  {
    p.scale * Max0(p.life)
  }

  /** The shared dummy object's scale when slot `i` is reached: the hide branch does not reset it,
      so it is the factor of the last live slot before `i`, or what it was before the frame. */
  function CarriedScale(ps: seq<Particle>, dt: real, i: nat, before: real): real
    requires i <= |ps|
  {
    if i == 0 then before
    else if Alive(ps[i - 1]) then DrawScale(Age(ps[i - 1], dt))
    else CarriedScale(ps, dt, i - 1, before)
  }

  /** The matrix written for slot `i`, given the particles as they were before ageing. */
  function DrawnAt(ps: seq<Particle>, dt: real, before: real, i: nat): Instance
    requires i < |ps|
  {
    if Alive(ps[i]) then Instance(Age(ps[i], dt).position, DrawScale(Age(ps[i], dt)))
    else Instance(Parked, CarriedScale(ps, dt, i, before))
  }

  function Drawn(ps: seq<Particle>, dt: real, before: real): (r: seq<Instance>)
    ensures |r| == |ps|
  {
    seq(|ps|, i requires 0 <= i < |ps| => DrawnAt(ps, dt, before, i))
  }

  /** The object invariant's data part: sizes are never negative. */
  predicate Sizes(ps: seq<Particle>)
  {
    forall i :: 0 <= i < |ps| ==> ps[i].scale >= 0.0
  }

  class SmokePool {
    var particles: array<Particle>
    /** `dummy.scale`, kept across slots and frames (a fresh Object3D has scale 1). */
    var dummyScale: real

    ghost predicate Valid()
      reads this, particles
    {
      particles.Length == PoolSize && dummyScale >= 0.0 && Sizes(particles[..])
    }

    /** The pool initialisation effect: fifty dead particles parked below the world. */
    constructor ()
      ensures Valid() && fresh(particles)
      ensures particles[..] == seq(PoolSize, _ => Dead)
      ensures dummyScale == 1.0
    {
      particles := new Particle[PoolSize](_ => Dead);
      dummyScale := 1.0;
    }

    /** Linear scan for the lowest dead slot. */
    method FindDead() returns (slot: Option<nat>)
      ensures slot == FirstDead(particles[..])
      ensures slot.Some? ==> slot.value < particles.Length && !Alive(particles[slot.value])
      ensures slot.Some? ==> forall j :: 0 <= j < slot.value ==> Alive(particles[j])
      ensures slot.None? ==> forall j :: 0 <= j < particles.Length ==> Alive(particles[j])
    {
      var i := 0;
      while i < particles.Length
        invariant 0 <= i <= particles.Length
        invariant FirstDeadFrom(particles[..], i) == FirstDead(particles[..])
      {
        if particles[i].life <= 0.0 {
          return Some(i);
        }
        i := i + 1;
      }
      return None;
    }

    /** One wheel's spawn. */
    method SpawnFromWheel(wheel: Option<Vec3>, d: SmokeDraw)
      requires Valid() && ValidDraw(d)
      modifies particles
      ensures Valid()
      ensures particles[..] == SpawnAt(old(particles[..]), wheel, d)
    {
      if wheel.None? {
        return;
      }
      var slot := FindDead();
      if slot.Some? {
        particles[slot.value] := Spawned(wheel.value, d);
      }
    }

    /** The ageing pass: every live particle fades, drifts and grows; a matrix is written for
        every slot. Returns the matrices in slot order. */
    method Update(dt: real) returns (drawn: seq<Instance>)
      requires Valid() && dt >= 0.0
      modifies this`dummyScale, particles
      ensures Valid() && particles == old(particles)
      ensures particles[..] == UpdateAll(old(particles[..]), dt)
      ensures drawn == Drawn(old(particles[..]), dt, old(dummyScale))
      ensures dummyScale == CarriedScale(old(particles[..]), dt, PoolSize, old(dummyScale))
    {
      ghost var ps0 := particles[..];
      ghost var d0 := dummyScale;
      drawn := [];
      var i := 0;
      while i < particles.Length
        invariant 0 <= i <= particles.Length == PoolSize == |ps0|
        invariant forall k :: 0 <= k < i ==> particles[k] == Age(ps0[k], dt)
        invariant forall k :: i <= k < particles.Length ==> particles[k] == ps0[k]
        invariant |drawn| == i
        invariant forall k :: 0 <= k < i ==> drawn[k] == DrawnAt(ps0, dt, d0, k)
        invariant dummyScale == CarriedScale(ps0, dt, i, d0)
        invariant dummyScale >= 0.0
      {
        var p := particles[i];
        assert p == ps0[i];
        if p.life > 0.0 {
          var q := Particle(AddScaled(p.position, p.velocity, dt), p.velocity, p.scale + dt * 3.0, p.life - dt * 1.0);
          assert q == Age(ps0[i], dt);
          particles[i] := q;
          dummyScale := q.scale * (if q.life > 0.0 then q.life else 0.0);
          assert dummyScale == CarriedScale(ps0, dt, i + 1, d0);
          drawn := drawn + [Instance(q.position, dummyScale)];
        } else {
          assert dummyScale == CarriedScale(ps0, dt, i + 1, d0);
          drawn := drawn + [Instance(Parked, dummyScale)];
        }
        assert drawn[i] == DrawnAt(ps0, dt, d0, i);
        i := i + 1;
      }
      assert particles[..] == UpdateAll(ps0, dt);
      assert Sizes(particles[..]) by {
        forall k | 0 <= k < PoolSize ensures particles[k].scale >= 0.0 {
          assert ps0[k].scale >= 0.0;
        }
      }
    }

    /** One frame of the component: nothing while the mesh is not mounted; otherwise the spawn
        step (clamped step, gate, wheels 2 and 3) followed by the ageing pass. */
    method Frame(mounted: bool, delta: real, braking: bool, speed: real,
                 wheel2: Option<Vec3>, wheel3: Option<Vec3>, d2: SmokeDraw, d3: SmokeDraw)
      returns (drawn: seq<Instance>)
      requires Valid() && delta >= 0.0 && ValidDraw(d2) && ValidDraw(d3)
      modifies this`dummyScale, particles
      ensures Valid() && particles == old(particles)
      ensures !mounted ==> particles[..] == old(particles[..]) && drawn == [] && dummyScale == old(dummyScale)
      ensures mounted ==>
        var spawned := SpawnPhase(old(particles[..]), braking, speed, wheel2, wheel3, d2, d3);
        && particles[..] == UpdateAll(spawned, Step(delta))
        && drawn == Drawn(spawned, Step(delta), old(dummyScale))
        && dummyScale == CarriedScale(spawned, Step(delta), PoolSize, old(dummyScale))
    {
      drawn := [];
      if !mounted {
        return;
      }
      var dt := if delta < 0.1 then delta else 0.1;
      if braking && (if speed < 0.0 then -speed else speed) > 20.0 {
        SpawnFromWheel(wheel2, d2);
        SpawnFromWheel(wheel3, d3);
      }
      drawn := Update(dt);
    }
  }

  /** Smoke colour and opacity: light and thin in the rain, darker otherwise. */
  function SmokeColor(w: WeatherType): string
  {
    if w == Rain then "#d1d5db" else "#6b7280"
  }

  function SmokeOpacity(w: WeatherType): real
  {
    if w == Rain then 0.3 else 0.5
  }

  // ---------------------------------------------------------------------------------------------
  // Properties of the pool

  /** Number of live particles. */
  function AliveCount(ps: seq<Particle>): nat
  {
    if ps == [] then 0 else (if Alive(ps[0]) then 1 else 0) + AliveCount(ps[1..])
  }

  lemma {:induction false} AliveCountBound(ps: seq<Particle>)
    ensures AliveCount(ps) <= |ps|
    ensures AliveCount(ps) == |ps| <==> forall i :: 0 <= i < |ps| ==> Alive(ps[i])
  {
    if ps != [] {
      AliveCountBound(ps[1..]);
      if forall i :: 0 <= i < |ps| ==> Alive(ps[i]) {
        assert forall i :: 0 <= i < |ps[1..]| ==> Alive(ps[1..][i]) by {
          forall i | 0 <= i < |ps[1..]| ensures Alive(ps[1..][i]) { assert ps[1..][i] == ps[i + 1]; }
        }
      }
    }
  }

  /** Replacing one slot changes the count by that slot's contribution only. */
  lemma {:induction false} AliveCountUpdate(ps: seq<Particle>, i: nat, p: Particle)
    requires i < |ps|
    ensures AliveCount(ps[i := p]) + (if Alive(ps[i]) then 1 else 0)
         == AliveCount(ps) + (if Alive(p) then 1 else 0)
  {
    if i > 0 {
      AliveCountUpdate(ps[1..], i - 1, p);
      assert ps[i := p][1..] == ps[1..][i - 1 := p];
    } else {
      assert ps[i := p][1..] == ps[1..];
    }
  }

  /** A wheel's spawn leaves the pool's size alone and revives at most one particle, exactly one
      when the wheel is mounted and a dead slot exists. */
  lemma SpawnAtCount(ps: seq<Particle>, wheel: Option<Vec3>, d: SmokeDraw)
    requires ValidDraw(d)
    ensures |SpawnAt(ps, wheel, d)| == |ps|
    ensures AliveCount(SpawnAt(ps, wheel, d)) ==
            AliveCount(ps) + (if wheel.Some? && FirstDead(ps).Some? then 1 else 0)
  {
    if wheel.Some? && FirstDead(ps).Some? {
      AliveCountUpdate(ps, FirstDead(ps).value, Spawned(wheel.value, d));
    }
  }

  /** The spawn reuses the lowest dead slot and changes nothing else; with no dead slot the
      pool is unchanged. */
  lemma SpawnAtSlot(ps: seq<Particle>, wheel: Vec3, d: SmokeDraw)
    requires ValidDraw(d)
    ensures forall i :: 0 <= i < |ps| && Alive(ps[i]) ==> SpawnAt(ps, Some(wheel), d)[i] == ps[i]
    ensures (forall i :: 0 <= i < |ps| ==> Alive(ps[i])) ==> SpawnAt(ps, Some(wheel), d) == ps
    ensures forall k :: 0 <= k < |ps| && !Alive(ps[k]) && (forall j :: 0 <= j < k ==> Alive(ps[j])) ==>
              SpawnAt(ps, Some(wheel), d) == ps[k := Spawned(wheel, d)]
  {
  }

  /** The two spawns of a frame land in different slots: the first slot is alive again before the
      second scan, so the second scan finds a later slot. */
  lemma TwoSpawnsDistinct(ps: seq<Particle>, w2: Vec3, d2: SmokeDraw)
    requires ValidDraw(d2)
    requires FirstDead(ps).Some?
    ensures var after := SpawnAt(ps, Some(w2), d2);
      FirstDead(after).Some? ==> FirstDead(after).value > FirstDead(ps).value
  {
    var i := FirstDead(ps).value;
    var after := SpawnAt(ps, Some(w2), d2);
    if FirstDead(after).Some? {
      var j := FirstDead(after).value;
      assert Alive(after[i]);
    }
  }

  /** Spawning happens only past the gate. */
  lemma NoSpawnBelowGate(ps: seq<Particle>, braking: bool, speed: real,
                         w2: Option<Vec3>, w3: Option<Vec3>, d2: SmokeDraw, d3: SmokeDraw)
    requires ValidDraw(d2) && ValidDraw(d3)
    requires !braking || -SpawnSpeed <= speed <= SpawnSpeed
    ensures SpawnPhase(ps, braking, speed, w2, w3, d2, d3) == ps
  {
  }

  /** Ageing: a live particle loses dt of life, moves by velocity times dt and grows by 3 dt; a
      dead one keeps every stored field. */
  lemma AgeEffect(p: Particle, dt: real)
    ensures Alive(p) ==>
      && Age(p, dt).life == p.life - dt && Age(p, dt).scale == p.scale + 3.0 * dt
      && Age(p, dt).position == AddScaled(p.position, p.velocity, dt)
      && Age(p, dt).velocity == p.velocity
    ensures !Alive(p) ==> Age(p, dt) == p
  {
  }

  /** Every matrix written has a non-negative scale, and a dead slot is always drawn parked. */
  lemma DrawnScalesNonNegative(ps: seq<Particle>, dt: real, before: real)
    requires Sizes(ps) && dt >= 0.0 && before >= 0.0
    ensures forall i :: 0 <= i < |ps| ==> Drawn(ps, dt, before)[i].scale >= 0.0
    ensures forall i :: 0 <= i < |ps| && !Alive(ps[i]) ==> Drawn(ps, dt, before)[i].position == Parked
  {
    forall i | 0 <= i < |ps| ensures Drawn(ps, dt, before)[i].scale >= 0.0 {
      CarriedScaleNonNegative(ps, dt, i, before);
    }
  }

  lemma {:induction false} CarriedScaleNonNegative(ps: seq<Particle>, dt: real, i: nat, before: real)
    requires Sizes(ps) && dt >= 0.0 && before >= 0.0 && i <= |ps|
    ensures CarriedScale(ps, dt, i, before) >= 0.0
  {
    if i > 0 && !Alive(ps[i - 1]) {
      CarriedScaleNonNegative(ps, dt, i - 1, before);
    }
  }

  /** Smoke looks like steam in the rain and like dark smoke in any other weather. */
  lemma SmokeLook(w: WeatherType)
    ensures SmokeColor(w) == "#d1d5db" && SmokeOpacity(w) == 0.3 <==> w == Rain
    ensures w != Rain ==> SmokeColor(w) == "#6b7280" && SmokeOpacity(w) == 0.5
  {
  }
}
