/**
  src/star.rs: a background star. Its colour type lives outside this
  model, so `Star` is generic in it and never looks inside.
*/
module Star {
  import opened Vectors

  datatype Star<Color> = Star(position: Vec3, brightness: real, color: Color)

  /** `f32::clamp(x, lo, hi)` for `lo <= hi`. */
  function Clamp(x: real, lo: real, hi: real): (r: real)
    requires lo <= hi
    ensures lo <= r <= hi
    ensures lo <= x <= hi ==> r == x
    ensures x < lo ==> r == lo
    ensures x > hi ==> r == hi
  {
    if x < lo then lo else if x > hi then hi else x
  }

  /** `Star::new`: the brightness is clamped into [0, 1]. */
  function NewStar<Color>(position: Vec3, brightness: real, color: Color): (s: Star<Color>)
    ensures 0.0 <= s.brightness <= 1.0
    ensures 0.0 <= brightness <= 1.0 ==> s.brightness == brightness
    ensures brightness < 0.0 ==> s.brightness == 0.0
    ensures brightness > 1.0 ==> s.brightness == 1.0
    ensures s.position == position && s.color == color
  {
    Star(position, Clamp(brightness, 0.0, 1.0), color)
  }

  /** Rebuilding a star from what it stores changes nothing. */
  lemma RebuildIsIdentity<Color>(position: Vec3, brightness: real, color: Color)
    ensures var s := NewStar(position, brightness, color);
      NewStar(s.position, s.brightness, s.color) == s
  {
  }

  /** Two requests on the same side of the range give the same star. */
  lemma ClampSaturates<Color>(position: Vec3, b1: real, b2: real, color: Color)
    requires (b1 >= 1.0 && b2 >= 1.0) || (b1 <= 0.0 && b2 <= 0.0)
    ensures NewStar(position, b1, color) == NewStar(position, b2, color)
  {
  }
}
