/**
 * The weather cycle and its effects (components/WeatherSystem.tsx): a timer that redraws the
 * weather, the fog and light settings per weather, and the rain particles' fall-and-wrap
 * animation over a flat buffer of x, y, z triples.
 */
module WeatherSystem {
  import opened Geometry
  import opened Constants
  import opened StoreModel
  import Store

  const RainCount: nat := 10000
  const FallSpeed: real := 50.0
  /** Height a drop is put back to when it falls below the ground. */
  const RespawnHeight: real := 100.0

  /** The weather drawn from one `Math.random()` result: 40% sunny, 30% rain, 30% fog. */
  function Resample(r: real): (w: WeatherType)
    ensures w == Sunny <==> r < 0.4
    ensures w == Rain <==> 0.4 <= r < 0.7
    ensures w == Fog <==> r >= 0.7
  {
    if r < 0.4 then Sunny
    else if r < 0.7 then Rain
    else Fog
  }

  /** One firing of the 30 000 ms interval timer: the drawn weather overwrites the store's,
      whatever it was. */
  method Cycle(store: Store.GameStore, r: real)
    modifies store
    ensures store.Snapshot() == SetWeather(old(store.Snapshot()), Resample(r))
  {
    var w: WeatherType;
    if r < 0.4 {
      w := Sunny;
    } else if r < 0.7 {
      w := Rain;
    } else {
      w := Fog;
    }
    store.SetWeather(w);
  }

  /** The resample is stateless: the new weather depends on the draw alone, so the same weather
      can be drawn again. */
  lemma ResampleIsStateless(s: StoreState, r: real)
    ensures SetWeather(s, Resample(r)).weather == Resample(r)
    ensures SetWeather(s, Resample(r)).(weather := s.weather) == s
    ensures s.weather == Sunny ==> SetWeather(s, Resample(0.1)).weather == s.weather
  {
  }

  /** Every weather can be drawn, whatever the current one is. */
  lemma ResampleReachesEvery(w: WeatherType)
    ensures exists q :: 0.0 <= q < 1.0 && Resample(q) == w
  {
    var q := match w case Sunny => 0.0 case Rain => 0.5 case Fog => 0.8;
    assert Resample(q) == w;
  }

  // ---------------------------------------------------------------------------------------------
  // Fog and lights

  /** The scene fog: colour, near distance, far distance. */
  datatype FogSettings = FogSettings(color: string, near: real, far: real)

  function FogFor(w: WeatherType): FogSettings
  {
    match w
    case Fog => FogSettings("#a0a0a0", 10.0, 50.0)
    case Rain => FogSettings("#334155", 20.0, 80.0)
    case Sunny => FogSettings("#87CEEB", 50.0, 200.0)
  }

  function AmbientIntensity(w: WeatherType): real
  {
    if w == Sunny then 0.6 else 0.3
  }

  function DirectionalIntensity(w: WeatherType): real
  {
    if w == Sunny then 1.0 else 0.4
  }

  /** Visibility orders the weathers: fog sees least, then rain, then sun; and the lights are
      brighter exactly when it is sunny. */
  lemma VisibilityOrder(w: WeatherType)
    ensures FogFor(w).near < FogFor(w).far
    ensures FogFor(Fog).far < FogFor(Rain).far < FogFor(Sunny).far
    ensures FogFor(Fog).near < FogFor(Rain).near < FogFor(Sunny).near
    ensures AmbientIntensity(w) == 0.6 <==> w == Sunny
    ensures DirectionalIntensity(w) == 1.0 <==> w == Sunny
    ensures w != Sunny ==> AmbientIntensity(w) == 0.3 && DirectionalIntensity(w) == 0.4
  {
  }

  // ---------------------------------------------------------------------------------------------
  // Rain buffer

  /** The value written at buffer index `j` from its `Math.random()` result: x and z in
      [-200, 200), y in [0, 200). */
  function InitialComponent(j: int, r: real): real
  {
    if j % 3 == 1 then r * 200.0 else (r - 0.5) * 400.0
  }

  /** The drop-initialisation effect. It writes only when the rain geometry is mounted; otherwise
      the buffer is the zero-filled array of the geometry's declaration. */
  method InitRain(mounted: bool, draws: seq<real>) returns (positions: array<real>)
    requires |draws| == 3 * RainCount
    requires forall j :: 0 <= j < |draws| ==> InUnit(draws[j])
    ensures fresh(positions) && positions.Length == 3 * RainCount
    ensures mounted ==> forall j :: 0 <= j < positions.Length ==> positions[j] == InitialComponent(j, draws[j])
    ensures !mounted ==> forall j :: 0 <= j < positions.Length ==> positions[j] == 0.0
  {
    positions := new real[3 * RainCount](_ => 0.0);
    if !mounted {
      return;
    }
    var i := 0;
    while i < RainCount
      invariant 0 <= i <= RainCount
      invariant forall j :: 0 <= j < 3 * i ==> positions[j] == InitialComponent(j, draws[j])
    {
      positions[i * 3] := (draws[i * 3] - 0.5) * 400.0;
      positions[i * 3 + 1] := draws[i * 3 + 1] * 200.0;
      positions[i * 3 + 2] := (draws[i * 3 + 2] - 0.5) * 400.0;
      i := i + 1;
    }
  }

  /** Initial drops lie in the box x, z in [-200, 200), y in [0, 200). */
  lemma InitialBounds(j: int, r: real)
    requires InUnit(r)
    ensures j % 3 == 1 ==> 0.0 <= InitialComponent(j, r) < 200.0
    ensures j % 3 != 1 ==> -200.0 <= InitialComponent(j, r) < 200.0
  {
  }

  /** One drop's fall: down by 50 delta, back to 100 when below the ground. */
  function Fall(y: real, delta: real): real
  {
    if y - FallSpeed * delta < 0.0 then RespawnHeight else y - FallSpeed * delta
  }

  /** One frame of the rain: every y component falls, every x and z stays. */
  function RainStep(s: seq<real>, delta: real): (r: seq<real>)
    ensures |r| == |s|
  {
    seq(|s|, j requires 0 <= j < |s| => if j % 3 == 1 then Fall(s[j], delta) else s[j])
  }

  /** The rain part of the frame callback; the buffer moves only while it rains and the points
      are mounted. */
  method AnimateRain(positions: array<real>, weather: WeatherType, mounted: bool, delta: real)
    modifies positions
    ensures positions[..] == if weather == Rain && mounted then RainStep(old(positions[..]), delta)
                             else old(positions[..])
  {
    if !(weather == Rain && mounted) {
      return;
    }
    ghost var before := positions[..];
    var i := 1;
    while i < positions.Length
      invariant 1 <= i && i % 3 == 1
      invariant i <= positions.Length + 2
      invariant forall j :: 0 <= j < positions.Length && j < i ==> positions[j] == RainStep(before, delta)[j]
      invariant forall j :: i <= j < positions.Length ==> positions[j] == before[j]
    {
      positions[i] := positions[i] - 50.0 * delta;
      if positions[i] < 0.0 {
        positions[i] := 100.0;
      }
      i := i + 3;
    }
    assert positions[..] == RainStep(before, delta);
  }

  /** After a rain frame no drop is below the ground, and x and z are untouched. */
  lemma RainStepEffect(s: seq<real>, delta: real)
    ensures forall j :: 0 <= j < |s| && j % 3 == 1 ==> RainStep(s, delta)[j] >= 0.0
    ensures forall j :: 0 <= j < |s| && j % 3 != 1 ==> RainStep(s, delta)[j] == s[j]
    ensures forall j :: 0 <= j < |s| && j % 3 == 1 && s[j] - 50.0 * delta >= 0.0 ==>
              RainStep(s, delta)[j] == s[j] - 50.0 * delta
  {
  }
}
