# Space-Travel renderer core, modelled in Dafny

Space-Travel is a software-rendered solar-system viewer. This project models
the stateful core behind each frame:

- the depth-composited **framebuffer**: three parallel arrays of packed
  `0x00RRGGBB` colours, f32 depths and emissive colours; depth-tested
  `set_pixel` and `point` writes; `clear`; and the `post_process` additive
  blend of the emissive colour into the colour buffer;
- the **body manager**: the fixed table of nine celestial bodies, lookup by
  name, the moon-to-parent position hierarchy, the selection cursor and the
  zoom level;
- the **camera**: its eye, centre and up vectors, the one-shot `has_changed`
  flag that downstream code polls and clears, and the follow target;
- the **warp transition**: a state machine that accumulates time until a
  sticky completion flag is set and, while it runs, brightens every pixel
  with each channel clamped at 255;
- the **star** constructor, which clamps the brightness into [0, 1].

Modules follow the source files:
- `Pixels` (`pixels.dfy`) is a helper module. It holds Rust's `u32` with its
  shift, mask, OR and `saturating_add`, all written out over unbounded
  integers.
- `Framebuffer` (`framebuffer.dfy`) models `src/framebuffer.rs`.
- `Orbital` (`orbital.dfy`) models `src/orbital.rs`.
- `Camera` (`camera.dfy`) models `src/camera.rs`.
- `Warp` (`warp.dfy`) models `src/warp.rs`.
- `Star` (`star.dfy`) models `src/star.rs`.
- `Vectors` and `Wrappers` are shared helpers: 3-vectors and `Option`.

The objects that the source updates in place are classes:
- `Framebuffer`, whose arrays are updated element by element in loops;
- `BodyManager`, `Camera` and `WarpEffect`.

The framebuffer and warp methods are proved against functions on values. For
example, `Framebuffer.Clear` ensures `State() == Cleared(old(State()))`, and
the lemmas then state what those functions guarantee. The `Camera` and
`BodyManager` methods are specified field by field: each says what every
field becomes and which fields stay as they were.

Facts of the code that the model keeps:

- **`blend_add` does not clamp at 255.** Each channel is added with
  `u32::saturating_add` on two 8-bit values. That sum is at most 510, so it
  never saturates. The three sums are then repacked with
  `(r << 16) | (g << 8) | b`, so a channel sum above 255 carries its ninth
  bit into the next channel up. A base of (250, 250, 250) plus an emission
  of (10, 10, 10) therefore gives `0x01050504`, channels (5, 5, 4).
  `Framebuffer.BlendAddCarriesPast255` shows that case, and
  `Framebuffer.BlendAddExactIff` proves the result matches the per-channel
  sums exactly when no sum exceeds 255.
- **`follow`, `update_view` and `stop_following` leave `has_changed`
  alone.** Only `new`, `orbit`, `zoom`, `move_center` and `interpolate_to`
  raise the flag, and only `check_if_changed` clears it.
- **`post_process` with no emission drops the top byte of every colour.**
  It leaves the buffer unchanged only when every colour is below
  `0x1000000`.

## Model

| member | source | states |
|---|---|---|
| Pixels.SaturatingAdd | src/framebuffer.rs:79-81 | `u32::saturating_add` is never below either operand and never above the true sum; it is the exact sum if and only if that fits in 32 bits, and `u32::MAX` otherwise |
| Pixels.Shl | src/framebuffer.rs:82 | `x << k` on `u32` loses no bit when `x * 2^k` fits in 32 bits |
| Pixels.Red | src/framebuffer.rs:79 | `(p >> 16) & 0xFF` is an 8-bit value |
| Pixels.Green | src/framebuffer.rs:80 | `(p >> 8) & 0xFF` is an 8-bit value |
| Pixels.Blue | src/framebuffer.rs:81 | `p & 0xFF` is an 8-bit value |
| Pixels.Pack | src/framebuffer.rs:82 | no contract of its own; `Pixels.PackDisjoint` and `Pixels.PackChannels` state what it computes from three 8-bit channels |
| Pixels.Or | src/framebuffer.rs:82 | bitwise OR on `u32` never exceeds the sum of its operands when that sum fits |
| Pixels.PackDisjoint | src/framebuffer.rs:82 | repacking three 8-bit channels is `r*65536 + g*256 + b` and fits in 24 bits |
| Pixels.PackChannels | src/warp.rs:48-58 | unpacking a repacked pixel with `>>` and `& 0xFF` gives back the three channels |
| Pixels.RepackIsLow24 | src/warp.rs:48-58 | unpacking a pixel and repacking its channels is `p & 0xFFFFFF` |
| Framebuffer.PixelIndexInRange | src/framebuffer.rs:39 | an in-bounds `(x, y)` gives an index `y*width + x` below `width*height` |
| Framebuffer.PixelIndexInjective | src/framebuffer.rs:48 | in-bounds coordinates share an index if and only if they are equal |
| Framebuffer.Farther | src/framebuffer.rs:40 | the depth test `stored > incoming`: a write at +∞ never lands, a write at the stored depth does not land, and an empty (+∞) pixel takes any finite depth |
| Framebuffer.BlendAdd | src/framebuffer.rs:78-83 | no contract of its own; specified by `Framebuffer.BlendAddChannelSums`, `Framebuffer.BlendAddExactIff`, `Framebuffer.BlendAddCommutative` and `Framebuffer.BlendAddNoEmission` |
| Framebuffer.BlendAddChannelSums | src/framebuffer.rs:78-83 | each channel sum is at most 510, so the saturating add never saturates and `blend_add` repacks the plain sums |
| Framebuffer.BlendAddCommutative | src/framebuffer.rs:78-83 | `blend_add(a, b) == blend_add(b, a)` |
| Framebuffer.BlendAddNoEmission | src/framebuffer.rs:78-83 | blending with emission 0 gives `base & 0xFFFFFF` |
| Framebuffer.BlendAddDarkKeeps24Bit | src/framebuffer.rs:78-83 | a colour below `0x1000000` blended with emission 0 is unchanged |
| Framebuffer.BlendAddExactIff | src/framebuffer.rs:78-83 | the result's channels equal the channel sums (and fit in 24 bits) if and only if no channel sum exceeds 255 |
| Framebuffer.BlendAddCarriesPast255 | src/framebuffer.rs:78-83 | (250,250,250) plus (10,10,10) gives `0x01050504` with red channel 5: there is no clamp at 255 |
| Framebuffer.NewFrame | src/framebuffer.rs:14-24 | a new buffer is well formed with the given dimensions; its contents are stated by `Framebuffer.NewFrameContents` |
| Framebuffer.Cleared | src/framebuffer.rs:26-36 | `clear` keeps the buffer well formed and keeps its dimensions and both paint colours; its contents are stated by `Framebuffer.ClearedContents` |
| Framebuffer.WithPixel | src/framebuffer.rs:37-45 | `set_pixel` keeps the arrays' lengths and the dimensions |
| Framebuffer.WithPoint | src/framebuffer.rs:46-58 | `point` keeps the arrays' lengths and the dimensions |
| Framebuffer.PostProcessed | src/framebuffer.rs:69-75 | `post_process` keeps the arrays' lengths |
| Framebuffer.NewFrameContents | src/framebuffer.rs:14-24 | a new buffer has `width*height` entries in each array, every depth +∞, every colour and emission 0, and both paint colours black |
| Framebuffer.ClearedContents | src/framebuffer.rs:26-36 | after `clear`, every colour is the background colour, every depth +∞ and every emission 0; dimensions, lengths and paint colours are kept |
| Framebuffer.SetPixelOutOfBoundsIsNoOp | src/framebuffer.rs:38 | `set_pixel` outside the buffer changes nothing |
| Framebuffer.SetPixelInBounds | src/framebuffer.rs:37-45 | an in-bounds `set_pixel` writes colour and depth at `y*width + x` exactly when the stored depth is strictly greater; all other elements, the emissive array and the paint colours are unchanged |
| Framebuffer.PointInBounds | src/framebuffer.rs:46-58 | an in-bounds `point` writes the current colour and the depth when the depth test passes; it writes the emissive array only when `emissive` is set; all other elements and both paint colours are unchanged |
| Framebuffer.PointOutOfBoundsIsNoOp | src/framebuffer.rs:47 | `point` outside the buffer changes nothing |
| Framebuffer.WritesNeverRaiseDepth | src/framebuffer.rs:40-43 | no stored depth moves farther through `set_pixel` or `point` |
| Framebuffer.ClearedAcceptsFiniteWrite | src/framebuffer.rs:26-58 | after `clear`, an in-bounds `set_pixel` at a finite depth stores its colour and depth; an in-bounds `point` at a finite depth stores the current colour and the depth, and the current colour as emission when `emissive` is set |
| Framebuffer.SecondWriteAtSamePixel | src/framebuffer.rs:37-45 | after one write lands, a second write at the same pixel replaces it if and only if it is strictly nearer |
| Framebuffer.PostProcessedContents | src/framebuffer.rs:69-75 | `post_process` sets every colour to `blend_add(colour, emissive)` and leaves depths, emission and dimensions alone |
| Framebuffer.PostProcessWithoutEmissionIsIdentity | src/framebuffer.rs:69-83 | with all emission 0 and every colour below `0x1000000`, `post_process` changes nothing |
| Framebuffer.ApplyWrites | src/framebuffer.rs:37-45 | a sequence of `set_pixel` calls keeps the buffer well formed and its dimensions |
| Framebuffer.NearestWriteWins | src/framebuffer.rs:37-45 | after any sequence of writes, a pixel's depth is no farther than its old depth or any depth written to it; it shows either its old colour and depth or those of one write aimed at it |
| Framebuffer.Framebuffer.constructor | src/framebuffer.rs:14-24 | the new object holds `NewFrame(width, height)` in fresh arrays |
| Framebuffer.Framebuffer.Clear | src/framebuffer.rs:26-36 | the three loops leave the object holding `Cleared` of its old contents |
| Framebuffer.Framebuffer.SetPixel | src/framebuffer.rs:37-45 | the object ends holding `WithPixel` of its old contents |
| Framebuffer.Framebuffer.Point | src/framebuffer.rs:46-58 | the object ends holding `WithPoint` of its old contents |
| Framebuffer.Framebuffer.SetBackgroundColor | src/framebuffer.rs:60-62 | only the background colour changes |
| Framebuffer.Framebuffer.SetCurrentColor | src/framebuffer.rs:64-66 | only the current paint colour changes |
| Framebuffer.PostProcess | src/framebuffer.rs:69-75 | the loop leaves the object holding `PostProcessed` of its old contents |
| Orbital.ToCelestialType | src/orbital.rs:196-210 | no contract of its own; specified by `Orbital.ToCelestialTypeIsBijective` |
| Orbital.ToCelestialTypeIsBijective | src/orbital.rs:196-210 | `to_celestial_type` is one-to-one and uses every shader variant |
| Orbital.SolarSystem | src/orbital.rs:235-529 | the table holds nine bodies; its names and hierarchy are stated by `Orbital.SolarSystemHierarchy` |
| Orbital.SolarSystemHierarchy | src/orbital.rs:235-529 | the table has nine distinctly named bodies; the only moon is "Moon" at index 7, orbiting "Planet" at index 1; no parent chain has a cycle |
| Orbital.FirstIndexOfName | src/orbital.rs:546-548 | the index found holds the name and no earlier body does; `None` means no body has the name |
| Orbital.GetBodyByName | src/orbital.rs:546-548 | `None` if and only if no body has the name; otherwise the first body in list order with that name |
| Orbital.ParentIndex | src/orbital.rs:536-537 | a parent, when found, is an element of the table |
| Orbital.ResolvesWithin | src/orbital.rs:532-544 | a body that is not a moon needs no parent lookup, so its chain ends within any allowance |
| Orbital.PositionWithin | src/orbital.rs:532-544 | no contract of its own: `get_body_position` with an allowance of lookups; `Orbital.PositionWithinStable` shows that any sufficient allowance gives the same position |
| Orbital.GetBodyPosition | src/orbital.rs:532-544 | no contract of its own; specified by `Orbital.PositionWithoutParent`, `Orbital.PositionOfMoon` and `Orbital.MoonFollowsPlanet` |
| Orbital.PositionWithinStable | src/orbital.rs:532-544 | a longer lookup allowance changes neither whether the parent chain ends nor the position it gives |
| Orbital.PositionWithoutParent | src/orbital.rs:532-544 | a body that is not a moon, or whose parent name is not found, is at its own `position_at(time)` |
| Orbital.PositionOfMoon | src/orbital.rs:532-544 | a moon whose parent is found is at its own orbital offset plus the parent's position at the same time |
| Orbital.MoonFollowsPlanet | src/orbital.rs:532-544 | in the body table, the Moon's position is its orbital offset plus the Planet's position |
| Orbital.ZoomedIn | src/orbital.rs:550-552 | zooming in divides by 1.1 but never goes below 10.0; at or below 11.0 it lands exactly on 10.0 |
| Orbital.ZoomedOut | src/orbital.rs:554-556 | zooming out multiplies by 1.1, so a positive level strictly grows |
| Orbital.ZoomOutThenIn | src/orbital.rs:550-556 | zooming out then in returns any level at or above the floor |
| Orbital.BodyManager.constructor | src/orbital.rs:235-529 | the manager starts with the nine-body table, index 0 and zoom level 50.0 |
| Orbital.BodyManager.ZoomIn | src/orbital.rs:550-552 | the zoom level becomes `ZoomedIn` of the old one |
| Orbital.BodyManager.ZoomOut | src/orbital.rs:554-556 | the zoom level becomes `ZoomedOut` of the old one |
| Orbital.BodyManager.Next | src/orbital.rs:558-560 | the cursor advances by one modulo the body count and stays in range |
| Orbital.BodyManager.Select | src/orbital.rs:562-566 | the cursor becomes `index` when it is in range; otherwise nothing changes |
| Vectors.Lerp | src/camera.rs:117-121 | interpolation at 0 gives the start, at 1 gives the end, and between equal vectors gives that vector |
| Camera.OrbitedEye | src/camera.rs:67-78 | no contract of its own; specified by `Camera.OrbitByZeroIsIdentity` and `Camera.OrbitKeepsDistance` |
| Camera.OrbitedUp | src/camera.rs:69-79 | no contract of its own; specified by `Camera.OrbitByZeroIsIdentity` |
| Camera.ZoomedEye | src/camera.rs:85-87 | no contract of its own; specified by `Camera.ZoomByZeroIsIdentity` |
| Camera.MovedCenter | src/camera.rs:92-104 | no contract of its own; specified by `Camera.MoveCenterByZeroIsIdentity` |
| Camera.OrbitByZeroIsIdentity | src/camera.rs:67-82 | when a zero-angle rotation is the identity, `orbit(0, 0)` leaves eye and up unchanged |
| Camera.OrbitKeepsDistance | src/camera.rs:67-82 | when rotation keeps lengths, `orbit` keeps the eye-to-centre distance |
| Camera.ZoomByZeroIsIdentity | src/camera.rs:85-89 | `zoom(0)` leaves the eye where it was |
| Camera.MoveCenterByZeroIsIdentity | src/camera.rs:92-106 | when a zero rotation is the identity and scaling a normalised non-zero vector by its length gives it back, `move_center((0, 0, 0))` keeps the centre |
| Camera.Camera.constructor | src/camera.rs:25-34 | a new camera has the given vectors, `has_changed` set and no target |
| Camera.Camera.Follow | src/camera.rs:35-38 | sets the target, snaps the centre to it and the eye to it plus (0, 0, 10), and leaves `up` and `has_changed` unchanged |
| Camera.Camera.StopFollowing | src/camera.rs:40-42 | clears the target and changes nothing else |
| Camera.Camera.UpdateView | src/camera.rs:44-50 | with a target, snaps centre and eye to it; without one, changes nothing; never touches `up`, the flag or the target |
| Camera.Camera.Orbit | src/camera.rs:67-82 | changes only eye, up and the flag: rotates the eye about the centre and turns `up`, leaves the centre and target alone, and sets `has_changed` |
| Camera.Camera.Zoom | src/camera.rs:85-89 | changes only the eye and the flag: moves the eye `delta` along the normalised view direction and sets `has_changed` |
| Camera.Camera.MoveCenter | src/camera.rs:92-106 | changes only the centre and the flag: turns the view ray at the same radius and sets `has_changed` |
| Camera.Camera.CheckIfChanged | src/camera.rs:109-116 | returns the old flag and leaves it cleared |
| Camera.Camera.InterpolateTo | src/camera.rs:117-121 | interpolates eye and centre by `t`, with t=0 keeping them and t=1 reaching the targets; sets `has_changed`; never touches `up` or the target |
| Camera.ChangeIsReportedOnce | src/camera.rs:109-116 | after an `orbit`, the first `check_if_changed` returns true and the second returns false |
| Camera.FollowIsNotReported | src/camera.rs:35-50 | a `follow` followed by `check_if_changed` reports only what was pending before it |
| Warp.Progress | src/warp.rs:30 | progress is never above 1, it equals 1 if and only if the elapsed time has reached the duration, and before that it is `elapsed / 2.0` |
| Warp.F32ToU32 | src/warp.rs:54-56 | the saturating `as u32` cast sends non-positive values to 0 and truncates the rest |
| Warp.ClampToChannel | src/warp.rs:54-56 | `value.min(255.0) as u32` is at most 255, is 0 for non-positive values and 255 from 255 up, and truncates values in between |
| Warp.ClampToChannelMonotone | src/warp.rs:54-56 | a larger value never clamps to a smaller channel |
| Warp.Brightness | src/warp.rs:53-56 | the unclamped brightened channel `c * (1 + progress * 2)` is `c` at progress 0 and never below `c` for non-negative progress |
| Warp.BrightnessMonotone | src/warp.rs:53-56 | a larger progress never gives a smaller unclamped channel |
| Warp.BrightenChannel | src/warp.rs:53-56 | a brightened channel is at most 255; at progress 0 it is unchanged; any non-negative progress never darkens it; at progress 1 it is the clamped triple of the channel |
| Warp.BrightenMonotone | src/warp.rs:53-56 | a larger progress never gives a darker channel |
| Warp.WarpPixel | src/warp.rs:47-59 | a warped pixel fits in 24 bits and its channels are the brightened channels of the original |
| Warp.WarpAtStartKeepsColor | src/warp.rs:47-59 | at progress 0 a pixel becomes `p & 0xFFFFFF` |
| Warp.WarpedContents | src/warp.rs:45-60 | every colour is warped and fits in 24 bits; depths, emission and lengths are unchanged |
| Warp.Warped | src/warp.rs:45-60 | warping keeps the buffer well formed; its contents are stated by `Warp.WarpedContents` |
| Warp.ApplyWarpEffect | src/warp.rs:45-60 | the loop leaves the framebuffer holding `Warped` of its old contents; nothing but the colour buffer changes |
| Warp.Advanced | src/warp.rs:22-38 | no contract of its own; specified by `Warp.AdvancedKeepsConsistent`, `Warp.CompleteStaysComplete` and `Warp.EnoughTimeCompletes` |
| Warp.AdvancedKeepsConsistent | src/warp.rs:22-38 | one `render` keeps "complete exactly when elapsed ≥ duration"; a completed warp is left exactly as it was; otherwise `delta_time` is added |
| Warp.CompleteStaysComplete | src/warp.rs:22-25 | once complete, any number of renders changes nothing |
| Warp.EnoughTimeCompletes | src/warp.rs:27-37 | once the frame times add up to the remaining duration, the warp is complete |
| Warp.WarpEffect.constructor | src/warp.rs:14-20 | duration 2.0, elapsed 0.0, not complete, and the invariant holds |
| Warp.WarpEffect.Render | src/warp.rs:22-38 | a completed warp changes neither its fields nor the framebuffer; otherwise time accumulates, the framebuffer is warped by the new progress, and completion is set once the time is up; the invariant is preserved |
| Warp.WarpEffect.IsFinished | src/warp.rs:40-42 | returns the completion flag, which under the invariant means elapsed ≥ duration |
| Star.Clamp | src/star.rs:16 | the clamped value lies in the range, and a value already in it is unchanged |
| Star.NewStar | src/star.rs:13-18 | brightness is stored clamped into [0, 1] and unchanged if already in it; position and colour are stored exactly |
| Star.RebuildIsIdentity | src/star.rs:16 | rebuilding a star from its stored fields gives the same star |
| Star.ClampSaturates | src/star.rs:16 | any two brightnesses at or beyond the same end of [0, 1] give the same star |

## Left out

- `OrbitalElements::position_at` (src/orbital.rs:44-105) is left out: Kepler's equation by Newton iteration, f32 trigonometry and rotation matrices. Every operation that needs it takes it as a parameter `positionAt`, so the position lemmas hold whatever it computes. The Star body's period is 0, so `position_at` divides by zero for it; that is also not modelled.
- Orbital.GetBodyPosition: requires the moon-to-parent chain to end within `|bodies|` lookups, which holds whenever the chain has no name cycle. The source recurses without a bound and would not terminate on a cycle. `Orbital.SolarSystemHierarchy` proves the shipped table meets the requirement.
- Orbital.BodyManager.Next: requires a non-empty body list, because the source's `% len()` panics on an empty one.
- Orbital.BodyManager.constructor: keeps only the fields this core reads from each `CelestialBody`. Meshes, noise handles, terrain thresholds and ring material fields are not logic and are dropped. The table's `d * PI / 180.0` inclinations are kept in degrees as `Angle.Degrees(d)`.
- Orbital.ZoomedIn, Orbital.ZoomedOut: the zoom level, the step 1.1 and the floor 10.0 are exact reals, so f32 rounding is not modelled. The same holds for every other f32 value: depths, camera vectors and warp times.
- Framebuffer depths: NaN and negative infinity are not modelled. A depth is +∞ or a finite real.
- Framebuffer.Framebuffer.SetPixel: takes the colour already packed, because `Color::to_hex` is not part of this model. It compares with `width` and `height` as unbounded integers, so the `as i32` casts are not modelled for dimensions above `i32::MAX`. `usize` overflow of `y * width + x` is likewise left out.
- Framebuffer.Framebuffer methods, Framebuffer.PostProcess, Warp.ApplyWarpEffect: require `Valid()`, meaning the three arrays each hold `width*height` elements and are distinct. These are ownership facts of three separate `Vec`s that Rust guarantees.
- Camera rotation, normalisation and magnitude (`rotate_vec3`, `normalize`, `magnitude`) are parameters in the `Geometry` value. The orbit lemmas assume the two properties they name about them. `basis_change` and the unused `CameraMode` enum are not modelled.
- Warp.WarpEffect.Render: drops the `camera` parameter, which the source never reads.
- f32 NaN is not modelled anywhere: not as a star brightness (where `NaN.clamp(0.0, 1.0)` stays NaN), a camera vector component, a zoom level, a depth or a warp progress.
- Orbital.ToCelestialTypeIsBijective: `CelestialType` is declared in src/fragment.rs, which is not part of this model; it is modelled with only the nine variants `to_celestial_type` names, so surjectivity holds over those.
- Star.NewStar: the `Color` type is not part of this model, so `Star` is generic in it. `StarField` (src/stars.rs) is left out: random sampling and projection math.
- `src/main.rs` (window, input, asset loading, frame loop, matrices) and `src/noise.rs` are left out: they are I/O, orchestration and floating-point projection.
