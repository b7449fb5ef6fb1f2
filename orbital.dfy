/**
  src/orbital.rs: the celestial bodies of the scene and the `BodyManager`
  that owns them, with its selection cursor and zoom level.

  `OrbitalElements::position_at` (Kepler's equation, f32 trigonometry and
  rotation matrices) is not part of this model: every operation that needs
  it takes it as the parameter `positionAt`, so what is proved here holds
  whatever that function computes.
*/
module Orbital {
  import opened Wrappers
  import opened Vectors

  /** `crate::fragment::CelestialType`, the shading variant tag: nine variants. */
  datatype CelestialType =
    | StarShader | PlanetShader | GasGiantShader | RingedShader | RingsShader
    | Planet2Shader | MarsShader | MoonShader | CometShader

  /** `CelestialBodyEnum`. */
  datatype CelestialBodyEnum = Star | Planet | GasGiant | Ringed | Rings | Planet2 | Mars | Moon | Comet

  /** `CelestialBodyEnum::to_celestial_type`: each variant to the shader variant of the same name. */
  function ToCelestialType(b: CelestialBodyEnum): CelestialType {
    match b
    case Star => StarShader
    case Planet => PlanetShader
    case GasGiant => GasGiantShader
    case Ringed => RingedShader
    case Rings => RingsShader
    case Planet2 => Planet2Shader
    case Mars => MarsShader
    case Moon => MoonShader
    case Comet => CometShader
  }

  /** No two body kinds share a shader variant, and every shader variant is used. */
  lemma ToCelestialTypeIsBijective(a: CelestialBodyEnum, b: CelestialBodyEnum, t: CelestialType)
    ensures ToCelestialType(a) == ToCelestialType(b) ==> a == b
    ensures exists c :: ToCelestialType(c) == t
  {
    match t
    case StarShader => assert ToCelestialType(Star) == t;
    case PlanetShader => assert ToCelestialType(Planet) == t;
    case GasGiantShader => assert ToCelestialType(GasGiant) == t;
    case RingedShader => assert ToCelestialType(Ringed) == t;
    case RingsShader => assert ToCelestialType(Rings) == t;
    case Planet2Shader => assert ToCelestialType(Planet2) == t;
    case MarsShader => assert ToCelestialType(Mars) == t;
    case MoonShader => assert ToCelestialType(Moon) == t;
    case CometShader => assert ToCelestialType(Comet) == t;
  }

  /** An angle as the source writes it; `Degrees(d)` stands for the radian value `d * PI / 180.0`. */
  datatype Angle = Degrees(degrees: real)

  datatype OrbitalElements = OrbitalElements(
    semiMajorAxis: real,
    eccentricity: real,
    inclination: Angle,
    longitudeOfAscendingNode: Angle,
    argumentOfPeriapsis: Angle,
    meanAnomaly: Angle,
    orbitalPeriod: real)

  /**
    The fields of `CelestialBody` this core reads. `orbitingBodyName` names
    the parent of a moon; it is looked up by name on every query.
  */
  datatype CelestialBody = CelestialBody(
    name: string,
    shaderType: CelestialType,
    orbitalElements: OrbitalElements,
    scale: real,
    rotation: Vec3,
    isMoon: bool,
    orbitingBodyName: string)

  function Planar(a: real, e: real, inclinationDegrees: real, period: real): OrbitalElements {
    OrbitalElements(a, e, Degrees(inclinationDegrees), Degrees(0.0), Degrees(0.0), Degrees(0.0), period)
  }

  function Body(name: string, shader: CelestialType, elements: OrbitalElements, scale: real): CelestialBody {
    CelestialBody(name, shader, elements, scale, Vec3(0.0, 0.0, 0.0), false, "")
  }

  /** The table `BodyManager::new` builds, in selection order. */
  function SolarSystem(): (r: seq<CelestialBody>)
    ensures |r| == 9
  {
    [ Body("Star", StarShader, Planar(0.0, 0.0, 0.0, 0.0), 1.0),
      Body("Planet", PlanetShader, Planar(5.0, 0.1, 5.0, 30.0), 0.3),
      Body("GasGiant", GasGiantShader, Planar(8.0, 0.05, 10.0, 65.0), 0.5),
      Body("Ringed", RingedShader, Planar(10.0, 0.02, 15.0, 35.0), 0.5),
      Body("Rings", RingsShader, Planar(10.0, 0.02, 15.0, 35.0), 0.4).(rotation := Vec3(45.0, 0.0, 25.0)),
      Body("Planet2", Planet2Shader, Planar(6.0, 0.05, 7.0, 40.0), 0.3),
      Body("Mars", MarsShader, Planar(4.0, 0.08, 3.0, 20.0), 0.2),
      Body("Moon", MoonShader, Planar(0.7, 0.01, 5.0, 7.0), 0.06).(isMoon := true, orbitingBodyName := "Planet"),
      Body("Comet", CometShader, Planar(12.0, 0.7, 30.0, 100.0), 0.1) ]
  }

  // ---------------------------------------------------------------------
  // Lookup by name

  /** The position of the first body named `name`, as `iter().find` meets them. */
  function FirstIndexOfName(bodies: seq<CelestialBody>, name: string): (r: Option<nat>)
    ensures r.Some? ==> r.value < |bodies| && bodies[r.value].name == name
    ensures r.Some? ==> forall i :: 0 <= i < r.value ==> bodies[i].name != name
    ensures r.None? ==> forall i :: 0 <= i < |bodies| ==> bodies[i].name != name
    decreases |bodies|
  {
    if bodies == [] then None
    else if bodies[0].name == name then Some(0)
    else match FirstIndexOfName(bodies[1..], name)
      case None => None
      case Some(k) => Some(k + 1)
  }

  /** `BodyManager::get_body_by_name`: the first body in list order with that name, or `None`. */
  function GetBodyByName(bodies: seq<CelestialBody>, name: string): (r: Option<CelestialBody>)
    ensures r.None? <==> forall i :: 0 <= i < |bodies| ==> bodies[i].name != name
    ensures r.Some? ==>
      (r.value.name == name
       && exists i :: 0 <= i < |bodies| && bodies[i] == r.value && forall j :: 0 <= j < i ==> bodies[j].name != name)
  {
    match FirstIndexOfName(bodies, name)
    case None => None
    case Some(i) => Some(bodies[i])
  }

  // ---------------------------------------------------------------------
  // Positions through the moon-to-parent hierarchy

  /** Where `get_body_position` finds the parent of `b`: only a moon has one, and only if its name is found. */
  function ParentIndex(bodies: seq<CelestialBody>, b: CelestialBody): (r: Option<nat>)
    ensures r.Some? ==> r.value < |bodies|
  {
    if b.isMoon then FirstIndexOfName(bodies, b.orbitingBodyName) else None
  }

  /** The chain of parents from `b` ends after at most `steps` lookups (there is no name cycle on it). */
  predicate ResolvesWithin(bodies: seq<CelestialBody>, b: CelestialBody, steps: nat)
    ensures !b.isMoon ==> ResolvesWithin(bodies, b, steps)
    decreases steps
  {
    match ParentIndex(bodies, b)
    case None => true
    case Some(j) => steps > 0 && ResolvesWithin(bodies, bodies[j], steps - 1)
  }

  function PositionWithin(bodies: seq<CelestialBody>, b: CelestialBody, time: real,
                          positionAt: (OrbitalElements, real) -> Vec3, steps: nat): Vec3
    requires ResolvesWithin(bodies, b, steps)
    decreases steps
  {
    var own := positionAt(b.orbitalElements, time);
    match ParentIndex(bodies, b)
    case None => own
    case Some(j) => Add(own, PositionWithin(bodies, bodies[j], time, positionAt, steps - 1))
  }

  /** A longer allowance changes neither whether the chain ends nor the position it gives. */
  lemma {:induction false} PositionWithinStable(bodies: seq<CelestialBody>, b: CelestialBody, time: real,
                                                 positionAt: (OrbitalElements, real) -> Vec3, s1: nat, s2: nat)
    requires ResolvesWithin(bodies, b, s1) && s1 <= s2
    ensures ResolvesWithin(bodies, b, s2)
    ensures PositionWithin(bodies, b, time, positionAt, s1) == PositionWithin(bodies, b, time, positionAt, s2)
    decreases s1
  {
    match ParentIndex(bodies, b)
    case None =>
    case Some(j) =>
      PositionWithinStable(bodies, bodies[j], time, positionAt, s1 - 1, s2 - 1);
  }

  /**
    `BodyManager::get_body_position(body, time)`. The source recurses
    without a bound; the precondition says the parent chain of `body` has no
    name cycle, in which case it visits distinct bodies and so ends within
    `|bodies|` lookups.
  */
  function GetBodyPosition(bodies: seq<CelestialBody>, body: CelestialBody, time: real,
                           positionAt: (OrbitalElements, real) -> Vec3): Vec3
    requires ResolvesWithin(bodies, body, |bodies|)
  {
    PositionWithin(bodies, body, time, positionAt, |bodies|)
  }

  /** A body that is not a moon, or whose parent name is not found, is where its own orbit puts it. */
  lemma PositionWithoutParent(bodies: seq<CelestialBody>, body: CelestialBody, time: real,
                              positionAt: (OrbitalElements, real) -> Vec3)
    requires !body.isMoon || FirstIndexOfName(bodies, body.orbitingBodyName).None?
    ensures ResolvesWithin(bodies, body, |bodies|)
    ensures GetBodyPosition(bodies, body, time, positionAt) == positionAt(body.orbitalElements, time)
  {
  }

  /**
    A moon whose parent is found is at its own orbital offset plus the
    parent's resolved position at the same time.
  */
  lemma PositionOfMoon(bodies: seq<CelestialBody>, body: CelestialBody, time: real,
                       positionAt: (OrbitalElements, real) -> Vec3)
    requires ResolvesWithin(bodies, body, |bodies|)
    requires body.isMoon && FirstIndexOfName(bodies, body.orbitingBodyName).Some?
    ensures var parent := bodies[FirstIndexOfName(bodies, body.orbitingBodyName).value];
      ResolvesWithin(bodies, parent, |bodies|)
      && GetBodyPosition(bodies, body, time, positionAt)
         == Add(positionAt(body.orbitalElements, time), GetBodyPosition(bodies, parent, time, positionAt))
  {
    var parent := bodies[FirstIndexOfName(bodies, body.orbitingBodyName).value];
    PositionWithinStable(bodies, parent, time, positionAt, |bodies| - 1, |bodies|);
  }

  /**
    The table holds nine distinctly named bodies; the only moon, "Moon" at
    index 7, orbits "Planet", found at index 1; no parent chain has a cycle.
  */
  lemma SolarSystemHierarchy()
    ensures var t := SolarSystem();
      |t| == 9
      && (forall i, j :: 0 <= i < j < |t| ==> t[i].name != t[j].name)
      && (forall i :: 0 <= i < |t| && i != 7 ==> !t[i].isMoon)
      && t[7].name == "Moon" && t[7].isMoon && t[7].orbitingBodyName == "Planet"
      && FirstIndexOfName(t, "Planet") == Some(1)
      && (forall i :: 0 <= i < |t| ==> ResolvesWithin(t, t[i], |t|))
  {
    var t := SolarSystem();
    assert t[0].name != "Planet";
    assert ParentIndex(t, t[7]) == Some(1);
    assert ParentIndex(t, t[1]) == None;
    assert ResolvesWithin(t, t[1], 8);
  }

  /** The Moon is drawn at its own orbital offset around the Planet's position. */
  lemma MoonFollowsPlanet(time: real, positionAt: (OrbitalElements, real) -> Vec3)
    ensures var t := SolarSystem();
      ResolvesWithin(t, t[7], |t|)
      && GetBodyPosition(t, t[7], time, positionAt)
         == Add(positionAt(t[7].orbitalElements, time), positionAt(t[1].orbitalElements, time))
  {
    var t := SolarSystem();
    SolarSystemHierarchy();
    PositionOfMoon(t, t[7], time, positionAt);
    PositionWithoutParent(t, t[1], time, positionAt);
  }

  // ---------------------------------------------------------------------
  // Zoom

  const ZoomFloor: real := 10.0
  const ZoomStep: real := 1.1

  function Max(a: real, b: real): real { if a >= b then a else b }

  /** `zoom_in`: divide by the step, but never below the floor. */
  function ZoomedIn(zoom: real): (r: real)
    ensures r >= ZoomFloor
    ensures zoom >= ZoomFloor * ZoomStep ==> r * ZoomStep == zoom
    ensures zoom <= ZoomFloor * ZoomStep ==> r == ZoomFloor
  {
    Max(zoom / ZoomStep, ZoomFloor)
  }

  /** `zoom_out`: multiply by the step, with no upper bound. */
  function ZoomedOut(zoom: real): (r: real)
    ensures zoom > 0.0 ==> r > zoom
    ensures r / ZoomStep == zoom
  {
    zoom * ZoomStep
  }

  /** Zooming out and back in returns to any level at or above the floor. */
  lemma ZoomOutThenIn(zoom: real)
    requires zoom >= ZoomFloor
    ensures ZoomedIn(ZoomedOut(zoom)) == zoom
  {
  }

  // ---------------------------------------------------------------------
  // The manager object

  class BodyManager {
    const allBodies: seq<CelestialBody>
    var currentIndex: nat
    var zoomLevel: real

    /** `BodyManager::new`, without the meshes and noise handles. */
    constructor ()
      ensures allBodies == SolarSystem() && currentIndex == 0 && zoomLevel == 50.0
    {
      allBodies := SolarSystem();
      currentIndex := 0;
      zoomLevel := 50.0;
    }

    method ZoomIn()
      modifies this`zoomLevel
      ensures zoomLevel == ZoomedIn(old(zoomLevel))
    {
      zoomLevel := Max(zoomLevel / ZoomStep, ZoomFloor);
    }

    method ZoomOut()
      modifies this`zoomLevel
      ensures zoomLevel == ZoomedOut(old(zoomLevel))
    {
      zoomLevel := zoomLevel * ZoomStep;
    }

    /** The modulo by the body count panics on an empty list, hence the precondition. */
    method Next()
      requires |allBodies| > 0
      modifies this`currentIndex
      ensures currentIndex == (old(currentIndex) + 1) % |allBodies|
      ensures currentIndex < |allBodies|
    {
      currentIndex := (currentIndex + 1) % |allBodies|;
    }

    /** An index past the end is ignored. */
    method Select(index: nat)
      modifies this`currentIndex
      ensures currentIndex == if index < |allBodies| then index else old(currentIndex)
    {
      if index < |allBodies| {
        currentIndex := index;
      }
    }
  }
}
