/**
  src/warp.rs: the warp transition. A `WarpEffect` accumulates elapsed time
  until a sticky completion flag is set; while it runs, every colour in the
  framebuffer is brightened by a factor that grows with the progress, each
  channel clamped at 255.

  Times are reals; f32 rounding is not modelled.
*/
module Warp {
  import opened Pixels
  import opened Framebuffer

  /** How long a warp lasts, in seconds (`WarpEffect::new`). */
  const Duration: real := 2.0

  /** `f32::min`. */
  function Min(a: real, b: real): (r: real)
    ensures r <= a && r <= b && (r == a || r == b)
  {
    if a <= b then a else b
  }

  /** `(elapsed / duration).min(1.0)`: the fraction of the warp that has passed. */
  function Progress(elapsed: real): (p: real)
    ensures p <= 1.0
    ensures p == 1.0 <==> elapsed >= Duration
    ensures elapsed < Duration ==> p == elapsed / Duration
    ensures elapsed >= 0.0 ==> p >= 0.0
  {
    Min(elapsed / Duration, 1.0)
  }

  /** Rust's saturating `f32 as u32`: negatives become 0, fractions are truncated. */
  function F32ToU32(x: real): (r: u32)
    ensures x <= 0.0 ==> r == 0
    ensures 0.0 <= x < 4294967296.0 ==> r as real <= x < r as real + 1.0
    ensures x >= 4294967295.0 ==> r == U32_MAX
  {
    if x <= 0.0 then 0 else if x >= 4294967295.0 then U32_MAX else x.Floor
  }

  lemma F32ToU32Monotone(x: real, y: real)
    requires x <= y
    ensures F32ToU32(x) <= F32ToU32(y)
  {
    if 0.0 < x && y < 4294967295.0 {
      assert x.Floor <= y.Floor;
    }
  }

  /** `value.min(255.0) as u32`: the clamp and cast that end each channel's brightening. */
  function ClampToChannel(value: real): (r: u32)
    ensures r <= 255
    ensures 0.0 <= value <= 255.0 ==> r as real <= value < r as real + 1.0
    ensures value <= 0.0 ==> r == 0
    ensures value >= 255.0 ==> r == 255
  {
    F32ToU32(Min(value, 255.0))
  }

  lemma ClampToChannelMonotone(x: real, y: real)
    requires x <= y
    ensures ClampToChannel(x) <= ClampToChannel(y)
  {
    assert Min(x, 255.0) <= Min(y, 255.0);
    F32ToU32Monotone(Min(x, 255.0), Min(y, 255.0));
  }

  /** A channel's value before the clamp: `c * (1 + progress * 2)`. */
  function Brightness(c: u32, progress: real): (v: real)
    ensures progress >= 0.0 ==> v >= c as real
    ensures progress == 0.0 ==> v == c as real
  {
    assert progress >= 0.0 ==> c as real * 1.0 <= c as real * (1.0 + progress * 2.0) by {
      if progress >= 0.0 {
        ScaleMonotone(c as real, 1.0, 1.0 + progress * 2.0);
      }
    }
    c as real * (1.0 + progress * 2.0)
  }

  lemma BrightnessMonotone(c: u32, p1: real, p2: real)
    requires p1 <= p2
    ensures Brightness(c, p1) <= Brightness(c, p2)
  {
    ScaleMonotone(c as real, 1.0 + p1 * 2.0, 1.0 + p2 * 2.0);
  }

  /** One channel brightened: `(c * (1 + progress * 2)).min(255.0) as u32`. */
  function BrightenChannel(c: u32, progress: real): (r: u32)
    requires c < 0x100
    ensures r <= 255
    ensures progress == 0.0 ==> r == c
    ensures progress >= 0.0 ==> r >= c
    ensures progress == 1.0 ==> r == ClampToChannel(3.0 * c as real)
  {
    assert progress >= 0.0 ==> ClampToChannel(c as real) <= ClampToChannel(Brightness(c, progress)) by {
      if progress >= 0.0 {
        ClampToChannelMonotone(c as real, Brightness(c, progress));
      }
    }
    ClampToChannel(Brightness(c, progress))
  }

  /** A later point of the warp never leaves a channel darker. */
  lemma BrightenMonotone(c: u32, p1: real, p2: real)
    requires c < 0x100 && p1 <= p2
    ensures BrightenChannel(c, p1) <= BrightenChannel(c, p2)
  {
    BrightnessMonotone(c, p1, p2);
    ClampToChannelMonotone(Brightness(c, p1), Brightness(c, p2));
  }

  lemma ScaleMonotone(k: real, a: real, b: real)
    requires k >= 0.0 && a <= b
    ensures k * a <= k * b
  {
    assert k * b - k * a == k * (b - a);
  }

  /** One pixel after `apply_warp_effect`: its three channels brightened and repacked. */
  function WarpPixel(p: u32, progress: real): (r: u32)
    ensures r < 0x100_0000
    ensures Red(r) == BrightenChannel(Red(p), progress)
    ensures Green(r) == BrightenChannel(Green(p), progress)
    ensures Blue(r) == BrightenChannel(Blue(p), progress)
  {
    var red := BrightenChannel(Red(p), progress);
    var green := BrightenChannel(Green(p), progress);
    var blue := BrightenChannel(Blue(p), progress);
    PackDisjoint(red, green, blue);
    PackChannels(red, green, blue);
    Pack(red, green, blue)
  }

  /** At progress 0 a pixel keeps its colour and loses only its top byte. */
  lemma WarpAtStartKeepsColor(p: u32)
    ensures WarpPixel(p, 0.0) == p % 0x100_0000
  {
    RepackIsLow24(p);
  }

  /** `apply_warp_effect` on the buffer as a value: only the colours change. */
  function Warped(f: Frame, progress: real): (r: Frame)
    ensures WellFormed(f) ==> WellFormed(r)
  {
    f.(colors := seq(|f.colors|, i requires 0 <= i < |f.colors| => WarpPixel(f.colors[i], progress)))
  }

  lemma WarpedContents(f: Frame, progress: real)
    ensures var r := Warped(f, progress);
      r.depths == f.depths && r.emissive == f.emissive && |r.colors| == |f.colors|
      && forall i :: 0 <= i < |r.colors| ==>
        (r.colors[i] < 0x100_0000
         && Red(r.colors[i]) == BrightenChannel(Red(f.colors[i]), progress)
         && Green(r.colors[i]) == BrightenChannel(Green(f.colors[i]), progress)
         && Blue(r.colors[i]) == BrightenChannel(Blue(f.colors[i]), progress))
  {
    var r := Warped(f, progress);
    forall i | 0 <= i < |r.colors|
      ensures r.colors[i] < 0x100_0000
      ensures Red(r.colors[i]) == BrightenChannel(Red(f.colors[i]), progress)
      ensures Green(r.colors[i]) == BrightenChannel(Green(f.colors[i]), progress)
      ensures Blue(r.colors[i]) == BrightenChannel(Blue(f.colors[i]), progress)
    {
      assert r.colors[i] == WarpPixel(f.colors[i], progress);
    }
  }

  /** `apply_warp_effect` rewrites every colour in place, one `WarpPixel` per element. */
  method ApplyWarpEffect(fb: Framebuffer, progress: real)
    requires fb.Valid()
    modifies fb.buffer
    ensures fb.State() == Warped(old(fb.State()), progress)
  {
    ghost var target := Warped(fb.State(), progress).colors;
    var i := 0;
    while i < fb.buffer.Length
      invariant 0 <= i <= fb.buffer.Length
      invariant forall k :: 0 <= k < i ==> fb.buffer[k] == target[k]
      invariant forall k :: i <= k < fb.buffer.Length ==> fb.buffer[k] == old(fb.buffer[k])
    {
      var pixel := fb.buffer[i];
      fb.buffer[i] := WarpPixel(pixel, progress);
      i := i + 1;
    }
    assert fb.buffer[..] == target;
  }

  // ---------------------------------------------------------------------
  // The state machine as values

  datatype WarpState = WarpState(elapsed: real, complete: bool)

  /** The invariant `render` keeps: complete exactly when the time is up. */
  predicate Consistent(s: WarpState) {
    s.complete <==> s.elapsed >= Duration
  }

  /** The effect of one `render(delta_time)` on the effect's fields. */
  function Advanced(s: WarpState, deltaTime: real): WarpState {
    if s.complete then s
    else
      var elapsed := s.elapsed + deltaTime;
      WarpState(elapsed, elapsed >= Duration)
  }

  /** One render keeps the invariant, and a completed warp stays exactly as it is. */
  lemma AdvancedKeepsConsistent(s: WarpState, deltaTime: real)
    requires Consistent(s)
    ensures Consistent(Advanced(s, deltaTime))
    ensures s.complete ==> Advanced(s, deltaTime) == s
    ensures !s.complete ==> Advanced(s, deltaTime).elapsed == s.elapsed + deltaTime
  {
  }

  /** The effect of a run of renders, one per frame time in `deltas`. */
  function AdvancedAll(s: WarpState, deltas: seq<real>): WarpState
    decreases |deltas|
  {
    if |deltas| == 0 then s else AdvancedAll(Advanced(s, deltas[0]), deltas[1..])
  }

  function Sum(deltas: seq<real>): real
    decreases |deltas|
  {
    if |deltas| == 0 then 0.0 else deltas[0] + Sum(deltas[1..])
  }

  /** Completion is sticky across any number of renders. */
  lemma {:induction false} CompleteStaysComplete(s: WarpState, deltas: seq<real>)
    requires s.complete
    ensures AdvancedAll(s, deltas) == s
    decreases |deltas|
  {
    if |deltas| > 0 {
      CompleteStaysComplete(Advanced(s, deltas[0]), deltas[1..]);
    }
  }

  /** Once the frame times add up to what remains of the warp, it has completed. */
  lemma {:induction false} EnoughTimeCompletes(s: WarpState, deltas: seq<real>)
    requires Consistent(s)
    requires s.elapsed + Sum(deltas) >= Duration
    ensures AdvancedAll(s, deltas).complete
    decreases |deltas|
  {
    if |deltas| > 0 {
      var next := Advanced(s, deltas[0]);
      if s.complete {
        CompleteStaysComplete(next, deltas[1..]);
      } else {
        assert next.elapsed + Sum(deltas[1..]) == s.elapsed + Sum(deltas);
        EnoughTimeCompletes(next, deltas[1..]);
      }
    }
  }

  class WarpEffect {
    const duration: real := Duration
    var elapsedTime: real
    var isComplete: bool

    ghost predicate Valid()
      reads this
    {
      Consistent(Status())
    }

    ghost function Status(): WarpState
      reads this
    {
      WarpState(elapsedTime, isComplete)
    }

    /** `WarpEffect::new`: a two-second warp, nothing elapsed, not complete. */
    constructor ()
      ensures Valid()
      ensures duration == 2.0 && elapsedTime == 0.0 && !isComplete
    {
      elapsedTime := 0.0;
      isComplete := false;
    }

    /**
      `render`: a completed warp touches nothing; otherwise time accumulates,
      the framebuffer is brightened by the new progress, and the flag is set
      once the time is up.
    */
    method Render(fb: Framebuffer, deltaTime: real)
      requires fb.Valid()
      modifies this, fb.buffer
      ensures Status() == Advanced(old(Status()), deltaTime)
      ensures old(isComplete) ==> fb.State() == old(fb.State())
      ensures !old(isComplete) ==> fb.State() == Warped(old(fb.State()), Progress(elapsedTime))
      ensures old(Valid()) ==> Valid()
    {
      if isComplete {
        return;
      }
      elapsedTime := elapsedTime + deltaTime;
      var progress := Min(elapsedTime / duration, 1.0);
      ApplyWarpEffect(fb, progress);
      if elapsedTime >= duration {
        isComplete := true;
      }
    }

    method IsFinished() returns (done: bool)
      ensures done == isComplete
      ensures Valid() ==> (done <==> elapsedTime >= duration)
    {
      done := isComplete;
    }
  }
}
