/**
  src/camera.rs: the camera's eye, centre and up vectors, the `has_changed`
  flag that downstream consumers poll and clear, and the optional follow
  target.

  The rotation and normalisation behind `orbit`, `zoom` and `move_center`
  are left abstract in a `Geometry` argument; each method is specified by
  exactly which fields it sets, to what combination of those primitives,
  and which fields it leaves alone.
*/
module Camera {
  import opened Wrappers
  import opened Vectors

  /** The fixed offset `follow` puts between the target and the eye. */
  const FollowOffset: Vec3 := Vec3(0.0, 0.0, 10.0)

  /** Where `orbit(deltaX, deltaY)` moves the eye, with `up` the up vector before the call. */
  function OrbitedEye(eye: Vec3, center: Vec3, up: Vec3, deltaX: real, deltaY: real, g: Geometry): Vec3 {
    var direction := Sub(eye, center);
    var horizontalAxis := g.normalize(up);
    var verticalAxis := g.normalize(Cross(direction, horizontalAxis));
    var rotatedHorizontal := g.rotate(direction, deltaX, horizontalAxis);
    Add(center, g.rotate(rotatedHorizontal, deltaY, verticalAxis))
  }

  /** Where `orbit(deltaX, deltaY)` turns the up vector. */
  function OrbitedUp(eye: Vec3, center: Vec3, up: Vec3, deltaY: real, g: Geometry): Vec3 {
    var verticalAxis := g.normalize(Cross(Sub(eye, center), g.normalize(up)));
    g.rotate(up, deltaY, verticalAxis)
  }

  /** An orbit by zero angles leaves the eye and the up vector where they were. */
  lemma OrbitByZeroIsIdentity(eye: Vec3, center: Vec3, up: Vec3, g: Geometry)
    requires ZeroRotationIsIdentity(g)
    ensures OrbitedEye(eye, center, up, 0.0, 0.0, g) == eye
    ensures OrbitedUp(eye, center, up, 0.0, g) == up
  {
    var direction := Sub(eye, center);
    var horizontalAxis := g.normalize(up);
    var verticalAxis := g.normalize(Cross(direction, horizontalAxis));
    assert g.rotate(direction, 0.0, horizontalAxis) == direction;
    assert g.rotate(direction, 0.0, verticalAxis) == direction;
    assert g.rotate(up, 0.0, verticalAxis) == up;
  }

  /** When rotations keep lengths, an orbit keeps the eye's distance to the centre. */
  lemma OrbitKeepsDistance(eye: Vec3, center: Vec3, up: Vec3, deltaX: real, deltaY: real, g: Geometry)
    requires RotationKeepsLength(g)
    ensures g.magnitude(Sub(OrbitedEye(eye, center, up, deltaX, deltaY, g), center)) == g.magnitude(Sub(eye, center))
  {
    var direction := Sub(eye, center);
    var horizontalAxis := g.normalize(up);
    var verticalAxis := g.normalize(Cross(direction, horizontalAxis));
    var once := g.rotate(direction, deltaX, horizontalAxis);
    var twice := g.rotate(once, deltaY, verticalAxis);
    assert Sub(Add(center, twice), center) == twice;
    assert g.magnitude(twice) == g.magnitude(once);
    assert g.magnitude(once) == g.magnitude(direction);
  }

  /** Where `zoom(delta)` moves the eye: `delta` along the normalised view direction. */
  function ZoomedEye(eye: Vec3, center: Vec3, delta: real, g: Geometry): Vec3 {
    Add(eye, Scale(g.normalize(Sub(center, eye)), delta))
  }

  /** A zero zoom leaves the eye where it was, whatever the view direction. */
  lemma ZoomByZeroIsIdentity(eye: Vec3, center: Vec3, g: Geometry)
    ensures ZoomedEye(eye, center, 0.0, g) == eye
  {
  }

  /** Where `move_center(direction)` puts the centre: the view ray turned, at the old distance. */
  function MovedCenter(eye: Vec3, center: Vec3, up: Vec3, direction: Vec3, g: Geometry): Vec3 {
    var radiusVector := Sub(center, eye);
    var radius := g.magnitude(radiusVector);
    var rotated := g.rotate(radiusVector, direction.x * 0.05, Vec3(0.0, 1.0, 0.0));
    var right := g.normalize(Cross(rotated, up));
    var finalRotated := g.rotate(rotated, direction.y * 0.05, right);
    Add(eye, Scale(g.normalize(finalRotated), radius))
  }

  /** A `move_center` by a zero direction keeps the centre, when normalising is undone by scaling. */
  lemma MoveCenterByZeroIsIdentity(eye: Vec3, center: Vec3, up: Vec3, g: Geometry)
    requires ZeroRotationIsIdentity(g) && NormalizeRecovers(g)
    requires center != eye
    ensures MovedCenter(eye, center, up, Vec3(0.0, 0.0, 0.0), g) == center
  {
    var radiusVector := Sub(center, eye);
    assert radiusVector != Vec3(0.0, 0.0, 0.0);
    var rotated := g.rotate(radiusVector, 0.0, Vec3(0.0, 1.0, 0.0));
    assert rotated == radiusVector;
    var right := g.normalize(Cross(rotated, up));
    assert g.rotate(rotated, 0.0, right) == radiusVector;
    assert Scale(g.normalize(radiusVector), g.magnitude(radiusVector)) == radiusVector;
  }

  class Camera {
    var eye: Vec3
    var center: Vec3
    var up: Vec3
    var hasChanged: bool
    var target: Option<Vec3>

    /** `Camera::new`: a fresh camera counts as changed and follows nothing. */
    constructor (eye: Vec3, center: Vec3, up: Vec3)
      ensures this.eye == eye && this.center == center && this.up == up
      ensures hasChanged && target == None
    {
      this.eye := eye;
      this.center := center;
      this.up := up;
      hasChanged := true;
      target := None;
    }

    /** Start following `targetPosition` and snap the view to it; the change flag is not raised. */
    method Follow(targetPosition: Vec3)
      modifies this
      ensures target == Some(targetPosition)
      ensures center == targetPosition && eye == Add(targetPosition, FollowOffset)
      ensures up == old(up) && hasChanged == old(hasChanged)
    {
      target := Some(targetPosition);
      UpdateView();
    }

    /** Forget the target; the view stays where it is. */
    method StopFollowing()
      modifies this`target
      ensures target == None
    {
      target := None;
    }

    /** Snap the view to the target, if there is one; the change flag is not raised. */
    method UpdateView()
      modifies this`center, this`eye
      ensures old(target).Some? ==> center == old(target).value && eye == Add(old(target).value, FollowOffset)
      ensures old(target).None? ==> center == old(center) && eye == old(eye)
    {
      if target.Some? {
        var targetPos := target.value;
        center := targetPos;
        eye := Add(targetPos, FollowOffset);
      }
    }

    method Orbit(deltaX: real, deltaY: real, g: Geometry)
      modifies this`eye, this`up, this`hasChanged
      ensures eye == OrbitedEye(old(eye), center, old(up), deltaX, deltaY, g)
      ensures up == OrbitedUp(old(eye), center, old(up), deltaY, g)
      ensures hasChanged
    {
      var direction := Sub(eye, center);
      var horizontalAxis := g.normalize(up);
      var verticalAxis := g.normalize(Cross(direction, horizontalAxis));
      var rotatedDirectionHorizontal := g.rotate(direction, deltaX, horizontalAxis);
      var finalDirection := g.rotate(rotatedDirectionHorizontal, deltaY, verticalAxis);
      eye := Add(center, finalDirection);
      up := g.rotate(up, deltaY, verticalAxis);
      hasChanged := true;
    }

    method Zoom(delta: real, g: Geometry)
      modifies this`eye, this`hasChanged
      ensures eye == ZoomedEye(old(eye), center, delta, g)
      ensures hasChanged
    {
      var direction := g.normalize(Sub(center, eye));
      eye := Add(eye, Scale(direction, delta));
      hasChanged := true;
    }

    method MoveCenter(direction: Vec3, g: Geometry)
      modifies this`center, this`hasChanged
      ensures center == MovedCenter(eye, old(center), up, direction, g)
      ensures hasChanged
    {
      var radiusVector := Sub(center, eye);
      var radius := g.magnitude(radiusVector);
      var angleX := direction.x * 0.05;
      var angleY := direction.y * 0.05;
      var rotated := g.rotate(radiusVector, angleX, Vec3(0.0, 1.0, 0.0));
      var right := g.normalize(Cross(rotated, up));
      var finalRotated := g.rotate(rotated, angleY, right);
      center := Add(eye, Scale(g.normalize(finalRotated), radius));
      hasChanged := true;
    }

    /** One-shot read-and-clear of the change flag. */
    method CheckIfChanged() returns (changed: bool)
      modifies this`hasChanged
      ensures changed == old(hasChanged)
      ensures !hasChanged
    {
      if hasChanged {
        hasChanged := false;
        changed := true;
      } else {
        changed := false;
      }
    }

    /** Move eye and centre a fraction `t` of the way to the given ones. */
    method InterpolateTo(targetEye: Vec3, targetCenter: Vec3, t: real)
      modifies this`eye, this`center, this`hasChanged
      ensures eye == Lerp(old(eye), targetEye, t) && center == Lerp(old(center), targetCenter, t)
      ensures hasChanged
      ensures t == 0.0 ==> eye == old(eye) && center == old(center)
      ensures t == 1.0 ==> eye == targetEye && center == targetCenter
    {
      eye := Lerp(eye, targetEye, t);
      center := Lerp(center, targetCenter, t);
      hasChanged := true;
    }
  }

  /**
    A change made by `orbit` is reported by the first `check_if_changed`
    after it and by no later one until the next change.
  */
  method ChangeIsReportedOnce(c: Camera, deltaX: real, deltaY: real, g: Geometry)
      returns (first: bool, second: bool)
    modifies c
    ensures first && !second
    ensures c.center == old(c.center) && c.target == old(c.target)
  {
    c.Orbit(deltaX, deltaY, g);
    first := c.CheckIfChanged();
    second := c.CheckIfChanged();
  }

  /** Following reports no change by itself: a camera whose flag was clear stays clear. */
  method FollowIsNotReported(c: Camera, p: Vec3) returns (changed: bool)
    modifies c
    ensures changed == old(c.hasChanged)
    ensures c.center == p && c.target == Some(p)
  {
    c.Follow(p);
    changed := c.CheckIfChanged();
  }
}
