/**
  src/framebuffer.rs: a `width × height` pixel store made of three parallel
  arrays (packed colour, depth and emissive colour), with depth-tested
  writes, a full clear, and the `post_process` pass that adds the emissive
  colour into the colour buffer through `blend_add`.

  `Frame` is the value a `Framebuffer` object holds at one moment; the
  functions on `Frame` specify each operation, the class methods are proved
  to perform them on the arrays, and the lemmas state what the operations
  guarantee.
*/
module Framebuffer {
  import opened Pixels

  /** An f32 depth as the buffer stores it: `f32::INFINITY` or a finite value; smaller is nearer. */
  datatype Depth = Inf | Fin(value: real)

  /**
    `stored > incoming` on f32, the depth test of `set_pixel` and `point`:
    a write at +∞ never lands, a write at the stored depth does not land, and
    an empty (+∞) pixel takes any finite depth.
  */
  predicate Farther(stored: Depth, incoming: Depth)
    ensures Farther(stored, incoming) ==> incoming.Fin?
    ensures stored == incoming ==> !Farther(stored, incoming)
    ensures stored.Inf? && incoming.Fin? ==> Farther(stored, incoming)
  {
    match stored
    case Inf => incoming.Fin?
    case Fin(s) => incoming.Fin? && s > incoming.value
  }

  /** `a <= b` on f32 depths. */
  predicate NoFarther(a: Depth, b: Depth) {
    !Farther(a, b)
  }

  lemma NoFartherTransitive(a: Depth, b: Depth, c: Depth)
    requires NoFarther(a, b) && NoFarther(b, c)
    ensures NoFarther(a, c)
  {
  }

  // ---------------------------------------------------------------------
  // Pixel addressing

  /** `y * width + x`, the row-major index both write paths use. */
  function PixelIndex(width: nat, x: nat, y: nat): nat {
    y * width + x
  }

  lemma MulLeftMonotone(a: nat, b: nat, w: nat)
    requires a <= b
    ensures a * w <= b * w
  {
  }

  /** Every in-bounds coordinate addresses an element of the arrays. */
  lemma PixelIndexInRange(width: nat, height: nat, x: nat, y: nat)
    requires x < width && y < height
    ensures PixelIndex(width, x, y) < width * height
  {
    MulLeftMonotone(y + 1, height, width);
    assert (y + 1) * width == y * width + width;
  }

  /** Distinct in-bounds coordinates address distinct elements. */
  lemma PixelIndexInjective(width: nat, x1: nat, y1: nat, x2: nat, y2: nat)
    requires x1 < width && x2 < width
    ensures PixelIndex(width, x1, y1) == PixelIndex(width, x2, y2) <==> x1 == x2 && y1 == y2
  {
    if y1 < y2 {
      MulLeftMonotone(y1 + 1, y2, width);
      assert (y1 + 1) * width == y1 * width + width;
    } else if y2 < y1 {
      MulLeftMonotone(y2 + 1, y1, width);
      assert (y2 + 1) * width == y2 * width + width;
    }
  }

  // ---------------------------------------------------------------------
  // blend_add

  /**
    `blend_add(base, emissive)`: each 8-bit channel of the two colours is
    added with `u32::saturating_add`, and the three sums are repacked with
    `(r << 16) | (g << 8) | b`.
  */
  function BlendAdd(base: u32, emissive: u32): u32 {
    var r := SaturatingAdd(Red(base), Red(emissive));
    var g := SaturatingAdd(Green(base), Green(emissive));
    var b := SaturatingAdd(Blue(base), Blue(emissive));
    Pack(r, g, b)
  }

  /**
    The saturating add never saturates: each channel is the plain sum of two
    8-bit fields, at most 510, and those sums are what gets repacked.
  */
  lemma BlendAddChannelSums(base: u32, emissive: u32)
    ensures Red(base) + Red(emissive) <= 510
    ensures Green(base) + Green(emissive) <= 510
    ensures Blue(base) + Blue(emissive) <= 510
    ensures BlendAdd(base, emissive)
         == Pack(Red(base) + Red(emissive), Green(base) + Green(emissive), Blue(base) + Blue(emissive))
  {
    var r, g, b := Red(base) + Red(emissive), Green(base) + Green(emissive), Blue(base) + Blue(emissive);
    assert SaturatingAdd(Red(base), Red(emissive)) == r;
    assert SaturatingAdd(Green(base), Green(emissive)) == g;
    assert SaturatingAdd(Blue(base), Blue(emissive)) == b;
  }

  lemma BlendAddCommutative(a: u32, b: u32)
    ensures BlendAdd(a, b) == BlendAdd(b, a)
  {
  }

  /** Adding no light keeps the three colour channels and drops the top byte: `base & 0xFFFFFF`. */
  lemma BlendAddNoEmission(base: u32)
    ensures BlendAdd(base, 0) == base % 0x100_0000
  {
    assert Red(0) == 0 && Green(0) == 0 && Blue(0) == 0;
    RepackIsLow24(base);
  }

  /**
    The result carries the channel-wise sums in its channels exactly when no
    channel sum exceeds 255. A larger sum is not clamped: its ninth bit lands
    in the next channel up (or in the top byte, for red).
  */
  lemma BlendAddExactIff(base: u32, emissive: u32)
    ensures var r, g, b := Red(base) + Red(emissive), Green(base) + Green(emissive), Blue(base) + Blue(emissive);
      var c := BlendAdd(base, emissive);
      (Red(c) == r && Green(c) == g && Blue(c) == b && c < 0x100_0000) <==> (r <= 255 && g <= 255 && b <= 255)
  {
    var r, g, b := Red(base) + Red(emissive), Green(base) + Green(emissive), Blue(base) + Blue(emissive);
    var c := BlendAdd(base, emissive);
    BlendAddChannelSums(base, emissive);
    assert c == Pack(r, g, b);
    if r <= 255 && g <= 255 && b <= 255 {
      PackDisjoint(r, g, b);
      PackChannels(r, g, b);
    } else {
      assert Red(c) <= 255 && Green(c) <= 255 && Blue(c) <= 255;
    }
  }

  /**
    A base of (250, 250, 250) plus an emission of (10, 10, 10) gives
    0x01050504, channels (5, 5, 4): the sums of 260 carry into the
    neighbouring channels instead of stopping at 255.
  */
  lemma BlendAddCarriesPast255()
    ensures BlendAdd(0xFA_FAFA, 0x0A_0A0A) == 0x0105_0504
    ensures Red(BlendAdd(0xFA_FAFA, 0x0A_0A0A)) == 0x05
  {
    ChannelsOfSum(250, 250, 250);
    ChannelsOfSum(10, 10, 10);
    assert BlendAdd(0xFA_FAFA, 0x0A_0A0A) == Pack(260, 260, 260);
    PackOf260();
    assert 0x0105_0504 / 0x1_0000 == 0x105;
  }

  lemma PackOf260()
    ensures Pack(260, 260, 260) == 0x0105_0504
  {
    Pow2Constants();
    assert Shl(260, 16) == 65 * Pow2(18);
    assert Shl(260, 8) == 0x1_0400;
    BitOrDisjoint(65, 0x1_0400, 18);
    assert Or(Shl(260, 16), Shl(260, 8)) == 0x4141 * Pow2(10);
    BitOrDisjoint(0x4141, 260, 10);
  }

  // ---------------------------------------------------------------------
  // The buffer as a value

  datatype Frame = Frame(
    width: nat,
    height: nat,
    colors: seq<u32>,
    depths: seq<Depth>,
    emissive: seq<u32>,
    background: u32,
    current: u32)

  /** The three arrays hold one element per pixel. */
  predicate WellFormed(f: Frame) {
    |f.colors| == f.width * f.height
    && |f.depths| == f.width * f.height
    && |f.emissive| == f.width * f.height
  }

  /** `Framebuffer::new`: colour and emission 0, depth +∞, both paint colours black. */
  function NewFrame(width: nat, height: nat): (r: Frame)
    ensures WellFormed(r) && r.width == width && r.height == height
  {
    Frame(width, height,
      seq(width * height, i => 0),
      seq(width * height, i => Inf),
      seq(width * height, i => 0),
      0, 0)
  }

  /** `clear`: every colour becomes the background colour, every depth +∞, every emission 0. */
  function Cleared(f: Frame): (r: Frame)
    requires WellFormed(f)
    ensures WellFormed(r) && r.width == f.width && r.height == f.height
    ensures r.background == f.background && r.current == f.current
  {
    f.(colors := seq(|f.colors|, i => f.background),
       depths := seq(|f.depths|, i => Inf),
       emissive := seq(|f.emissive|, i => 0))
  }

  predicate InBounds(f: Frame, x: int, y: int) {
    0 <= x < f.width && 0 <= y < f.height
  }

  /** `set_pixel(x, y, color, depth)`, with `color` already packed by `Color::to_hex`. */
  function WithPixel(f: Frame, x: int, y: int, color: u32, depth: Depth): (r: Frame)
    requires WellFormed(f)
    ensures WellFormed(r) && r.width == f.width && r.height == f.height
  {
    if InBounds(f, x, y) then
      PixelIndexInRange(f.width, f.height, x, y);
      var i := PixelIndex(f.width, x, y);
      if Farther(f.depths[i], depth) then
        f.(colors := f.colors[i := color], depths := f.depths[i := depth])
      else f
    else f
  }

  /** `point(x, y, depth, emissive)`: a depth-tested write of the current paint colour. */
  function WithPoint(f: Frame, x: nat, y: nat, depth: Depth, emissive: bool): (r: Frame)
    requires WellFormed(f)
    ensures WellFormed(r) && r.width == f.width && r.height == f.height
  {
    if x < f.width && y < f.height then
      PixelIndexInRange(f.width, f.height, x, y);
      var i := PixelIndex(f.width, x, y);
      if Farther(f.depths[i], depth) then
        f.(colors := f.colors[i := f.current],
           emissive := if emissive then f.emissive[i := f.current] else f.emissive,
           depths := f.depths[i := depth])
      else f
    else f
  }

  /** `post_process`: every colour becomes `blend_add(colour, emissive)`. */
  function PostProcessed(f: Frame): (r: Frame)
    requires WellFormed(f)
    ensures WellFormed(r)
  {
    f.(colors := seq(|f.colors|, i requires 0 <= i < |f.colors| => BlendAdd(f.colors[i], f.emissive[i])))
  }

  // ---------------------------------------------------------------------
  // What the operations guarantee

  /** A new buffer holds one black, infinitely far, non-emissive entry per pixel. */
  lemma NewFrameContents(width: nat, height: nat)
    ensures var f := NewFrame(width, height);
      WellFormed(f) && f.width == width && f.height == height
      && (forall i :: 0 <= i < |f.depths| ==> f.depths[i] == Inf)
      && (forall i :: 0 <= i < |f.colors| ==> f.colors[i] == 0)
      && (forall i :: 0 <= i < |f.emissive| ==> f.emissive[i] == 0)
      && f.background == 0 && f.current == 0
  {
  }

  /** `clear` resets every pixel and keeps the dimensions, lengths and paint colours. */
  lemma ClearedContents(f: Frame)
    requires WellFormed(f)
    ensures var c := Cleared(f);
      WellFormed(c) && c.width == f.width && c.height == f.height
      && |c.colors| == |f.colors| && c.background == f.background && c.current == f.current
      && (forall i :: 0 <= i < |c.colors| ==> c.colors[i] == f.background)
      && (forall i :: 0 <= i < |c.depths| ==> c.depths[i] == Inf)
      && (forall i :: 0 <= i < |c.emissive| ==> c.emissive[i] == 0)
  {
  }

  /** An out-of-bounds `set_pixel` changes nothing. */
  lemma SetPixelOutOfBoundsIsNoOp(f: Frame, x: int, y: int, color: u32, depth: Depth)
    requires WellFormed(f) && !InBounds(f, x, y)
    ensures WithPixel(f, x, y, color, depth) == f
  {
  }

  /**
    An in-bounds `set_pixel` writes colour and depth at `y * width + x`
    exactly when the stored depth is strictly greater; every other element,
    the emissive array and the paint colours stay as they were.
  */
  lemma SetPixelInBounds(f: Frame, x: nat, y: nat, color: u32, depth: Depth)
    requires WellFormed(f) && x < f.width && y < f.height
    ensures var r, i := WithPixel(f, x, y, color, depth), PixelIndex(f.width, x, y);
      i < |f.colors|
      && (Farther(f.depths[i], depth) ==> r.colors[i] == color && r.depths[i] == depth)
      && (!Farther(f.depths[i], depth) ==> r == f)
      && (forall j :: 0 <= j < |f.colors| && j != i ==> r.colors[j] == f.colors[j] && r.depths[j] == f.depths[j])
      && r.emissive == f.emissive && r.background == f.background && r.current == f.current
  {
    PixelIndexInRange(f.width, f.height, x, y);
  }

  /** `point` writes the current paint colour, and the emissive array only when asked to. */
  lemma PointInBounds(f: Frame, x: nat, y: nat, depth: Depth, emissive: bool)
    requires WellFormed(f) && x < f.width && y < f.height
    ensures var r, i := WithPoint(f, x, y, depth, emissive), PixelIndex(f.width, x, y);
      i < |f.colors|
      && (Farther(f.depths[i], depth) ==> r.colors[i] == f.current && r.depths[i] == depth)
      && (Farther(f.depths[i], depth) && emissive ==> r.emissive == f.emissive[i := f.current])
      && (!emissive ==> r.emissive == f.emissive)
      && (!Farther(f.depths[i], depth) ==> r == f)
      && (forall j :: 0 <= j < |f.colors| && j != i ==> r.colors[j] == f.colors[j] && r.depths[j] == f.depths[j])
      && r.background == f.background && r.current == f.current
  {
    PixelIndexInRange(f.width, f.height, x, y);
  }

  /** An out-of-bounds `point` changes nothing. */
  lemma PointOutOfBoundsIsNoOp(f: Frame, x: nat, y: nat, depth: Depth, emissive: bool)
    requires WellFormed(f) && !(x < f.width && y < f.height)
    ensures WithPoint(f, x, y, depth, emissive) == f
  {
  }

  /** No stored depth ever moves farther away through `set_pixel` or `point`. */
  lemma WritesNeverRaiseDepth(f: Frame, x: int, y: int, color: u32, depth: Depth, emissive: bool)
    requires WellFormed(f)
    ensures forall j :: 0 <= j < |f.depths| ==> NoFarther(WithPixel(f, x, y, color, depth).depths[j], f.depths[j])
    ensures x >= 0 && y >= 0 ==>
      forall j :: 0 <= j < |f.depths| ==> NoFarther(WithPoint(f, x, y, depth, emissive).depths[j], f.depths[j])
  {
  }

  /**
    After `clear`, any in-bounds write at a finite depth succeeds: `set_pixel`
    stores its colour and depth; `point` stores the current paint colour and
    the depth, and the current colour as emission when asked to.
  */
  lemma ClearedAcceptsFiniteWrite(f: Frame, x: nat, y: nat, color: u32, d: real, emissive: bool)
    requires WellFormed(f) && x < f.width && y < f.height
    ensures var r, i := WithPixel(Cleared(f), x, y, color, Fin(d)), PixelIndex(f.width, x, y);
      i < |r.colors| && r.colors[i] == color && r.depths[i] == Fin(d)
    ensures var r, i := WithPoint(Cleared(f), x, y, Fin(d), emissive), PixelIndex(f.width, x, y);
      i < |r.colors| && i < |r.emissive| && r.colors[i] == f.current && r.depths[i] == Fin(d)
      && (emissive ==> r.emissive[i] == f.current)
  {
    PixelIndexInRange(f.width, f.height, x, y);
  }

  /**
    Two writes to one pixel: after a write at depth `d1` has landed, a
    second write at a farther `d2` leaves the first colour, and a write at
    a nearer `d2` replaces it.
  */
  lemma SecondWriteAtSamePixel(f: Frame, x: nat, y: nat, c1: u32, d1: real, c2: u32, d2: real)
    requires WellFormed(f) && x < f.width && y < f.height
    requires PixelIndex(f.width, x, y) < |f.depths| && Farther(f.depths[PixelIndex(f.width, x, y)], Fin(d1))
    ensures var r, i := WithPixel(WithPixel(f, x, y, c1, Fin(d1)), x, y, c2, Fin(d2)), PixelIndex(f.width, x, y);
      i < |r.colors| && (d2 >= d1 ==> r.colors[i] == c1) && (d2 < d1 ==> r.colors[i] == c2)
  {
    var i := PixelIndex(f.width, x, y);
    var f1 := WithPixel(f, x, y, c1, Fin(d1));
    SetPixelInBounds(f, x, y, c1, Fin(d1));
    assert f1.colors[i] == c1 && f1.depths[i] == Fin(d1);
    SetPixelInBounds(f1, x, y, c2, Fin(d2));
  }

  /** `post_process` blends every colour with its emission and leaves depth and emission alone. */
  lemma PostProcessedContents(f: Frame)
    requires WellFormed(f)
    ensures var r := PostProcessed(f);
      r.depths == f.depths && r.emissive == f.emissive && r.width == f.width && r.height == f.height
      && forall i :: 0 <= i < |f.colors| ==> r.colors[i] == BlendAdd(f.colors[i], f.emissive[i])
  {
  }

  /** With an all-zero emissive array, `post_process` leaves a 24-bit colour buffer as it was. */
  lemma PostProcessWithoutEmissionIsIdentity(f: Frame)
    requires WellFormed(f)
    requires forall i :: 0 <= i < |f.emissive| ==> f.emissive[i] == 0
    requires forall i :: 0 <= i < |f.colors| ==> f.colors[i] < 0x100_0000
    ensures PostProcessed(f) == f
  {
    var r := PostProcessed(f);
    forall i | 0 <= i < |f.colors|
      ensures r.colors[i] == f.colors[i]
    {
      assert f.emissive[i] == 0;
      BlendAddDarkKeeps24Bit(f.colors[i]);
    }
    assert r.colors == f.colors;
  }

  lemma BlendAddDarkKeeps24Bit(base: u32)
    requires base < 0x100_0000
    ensures BlendAdd(base, 0) == base
  {
    BlendAddNoEmission(base);
    SmallIsLow24(base);
  }

  lemma SmallIsLow24(c: u32)
    requires c < 0x100_0000
    ensures c % 0x100_0000 == c
  {
  }

  // ---------------------------------------------------------------------
  // A sequence of depth-tested writes

  /** One `set_pixel` call of a frame's drawing. */
  datatype Write = Write(x: int, y: int, color: u32, depth: Depth)

  /** The calls of `ws`, made one after the other. */
  function ApplyWrites(f: Frame, ws: seq<Write>): (r: Frame)
    requires WellFormed(f)
    ensures WellFormed(r) && r.width == f.width && r.height == f.height
    decreases |ws|
  {
    if ws == [] then f
    else ApplyWrites(WithPixel(f, ws[0].x, ws[0].y, ws[0].color, ws[0].depth), ws[1..])
  }

  predicate Targets(w: Write, x: nat, y: nat) {
    w.x == x && w.y == y
  }

  /**
    The depth test does its job: after any sequence of writes, a pixel holds
    a depth no farther than what it held before and than every depth written
    to it, and it shows either what it showed before or the colour and depth
    of one of the writes aimed at it.
  */
  lemma {:induction false} NearestWriteWins(f: Frame, ws: seq<Write>, x: nat, y: nat)
    requires WellFormed(f) && x < f.width && y < f.height
    ensures PixelIndex(f.width, x, y) < f.width * f.height
    ensures var r, i := ApplyWrites(f, ws), PixelIndex(f.width, x, y);
      NoFarther(r.depths[i], f.depths[i])
      && (forall k :: 0 <= k < |ws| && Targets(ws[k], x, y) ==> NoFarther(r.depths[i], ws[k].depth))
      && ((r.colors[i] == f.colors[i] && r.depths[i] == f.depths[i])
          || exists k :: 0 <= k < |ws| && Targets(ws[k], x, y) && r.colors[i] == ws[k].color && r.depths[i] == ws[k].depth)
    decreases |ws|
  {
    PixelIndexInRange(f.width, f.height, x, y);
    var i := PixelIndex(f.width, x, y);
    if ws != [] {
      var w := ws[0];
      var f1 := WithPixel(f, w.x, w.y, w.color, w.depth);
      var r := ApplyWrites(f, ws);
      assert r == ApplyWrites(f1, ws[1..]);
      // What the first write does to pixel i.
      if Targets(w, x, y) {
        assert NoFarther(f1.depths[i], w.depth);
        assert (f1.colors[i] == f.colors[i] && f1.depths[i] == f.depths[i])
            || (f1.colors[i] == w.color && f1.depths[i] == w.depth);
      } else if InBounds(f, w.x, w.y) {
        PixelIndexInjective(f.width, x, y, w.x, w.y);
        assert f1.colors[i] == f.colors[i] && f1.depths[i] == f.depths[i];
      }
      assert NoFarther(f1.depths[i], f.depths[i]);
      NearestWriteWins(f1, ws[1..], x, y);
      NoFartherTransitive(r.depths[i], f1.depths[i], f.depths[i]);
      forall k | 0 <= k < |ws| && Targets(ws[k], x, y)
        ensures NoFarther(r.depths[i], ws[k].depth)
      {
        if k == 0 {
          NoFartherTransitive(r.depths[i], f1.depths[i], w.depth);
        } else {
          assert ws[1..][k - 1] == ws[k];
        }
      }
      if r.colors[i] == f1.colors[i] && r.depths[i] == f1.depths[i] {
        if !(f1.colors[i] == f.colors[i] && f1.depths[i] == f.depths[i]) {
          assert Targets(ws[0], x, y) && r.colors[i] == ws[0].color && r.depths[i] == ws[0].depth;
        }
      } else {
        var k :| 0 <= k < |ws[1..]| && Targets(ws[1..][k], x, y)
          && r.colors[i] == ws[1..][k].color && r.depths[i] == ws[1..][k].depth;
        assert ws[k + 1] == ws[1..][k];
      }
    }
  }

  // ---------------------------------------------------------------------
  // The buffer object

  class Framebuffer {
    const width: nat
    const height: nat
    const buffer: array<u32>
    const zbuffer: array<Depth>
    const emissiveBuffer: array<u32>
    var backgroundColor: u32
    var currentColor: u32

    ghost predicate Valid() {
      buffer.Length == width * height
      && zbuffer.Length == width * height
      && emissiveBuffer.Length == width * height
      && buffer != emissiveBuffer
    }

    /** The buffer's contents as a value. */
    ghost function State(): (f: Frame)
      reads this, buffer, zbuffer, emissiveBuffer
      ensures Valid() ==> WellFormed(f)
    {
      Frame(width, height, buffer[..], zbuffer[..], emissiveBuffer[..], backgroundColor, currentColor)
    }

    constructor (width: nat, height: nat)
      ensures Valid() && State() == NewFrame(width, height)
      ensures fresh(buffer) && fresh(zbuffer) && fresh(emissiveBuffer)
    {
      this.width := width;
      this.height := height;
      buffer := new u32[width * height](i => 0);
      zbuffer := new Depth[width * height](i => Inf);
      emissiveBuffer := new u32[width * height](i => 0);
      backgroundColor := 0;
      currentColor := 0;
      new;
      assert buffer[..] == seq(width * height, i => 0);
      assert zbuffer[..] == seq(width * height, i => Inf);
      assert emissiveBuffer[..] == seq(width * height, i => 0);
    }

    method Clear()
      requires Valid()
      modifies buffer, zbuffer, emissiveBuffer
      ensures Valid() && State() == Cleared(old(State()))
    {
      var background := backgroundColor;
      var i := 0;
      while i < buffer.Length
        modifies buffer
        invariant 0 <= i <= buffer.Length
        invariant forall k :: 0 <= k < i ==> buffer[k] == backgroundColor
      {
        buffer[i] := backgroundColor;
        i := i + 1;
      }
      i := 0;
      while i < zbuffer.Length
        modifies zbuffer
        invariant 0 <= i <= zbuffer.Length
        invariant forall k :: 0 <= k < i ==> zbuffer[k] == Inf
      {
        zbuffer[i] := Inf;
        i := i + 1;
      }
      i := 0;
      while i < emissiveBuffer.Length
        modifies emissiveBuffer
        invariant 0 <= i <= emissiveBuffer.Length
        invariant forall k :: 0 <= k < i ==> emissiveBuffer[k] == 0
        invariant forall k :: 0 <= k < buffer.Length ==> buffer[k] == backgroundColor
      {
        emissiveBuffer[i] := 0;
        i := i + 1;
      }
      assert buffer[..] == seq(buffer.Length, k => background);
      assert zbuffer[..] == seq(zbuffer.Length, k => Inf);
      assert emissiveBuffer[..] == seq(emissiveBuffer.Length, k => 0);
    }

    method SetPixel(x: int, y: int, color: u32, depth: Depth)
      requires Valid()
      modifies buffer, zbuffer
      ensures Valid() && State() == WithPixel(old(State()), x, y, color, depth)
    {
      if 0 <= x < width && 0 <= y < height {
        PixelIndexInRange(width, height, x, y);
        var index := y * width + x;
        if Farther(zbuffer[index], depth) {
          buffer[index] := color;
          zbuffer[index] := depth;
        }
      }
    }

    method Point(x: nat, y: nat, depth: Depth, emissive: bool)
      requires Valid()
      modifies buffer, zbuffer, emissiveBuffer
      ensures Valid() && State() == WithPoint(old(State()), x, y, depth, emissive)
    {
      if x < width && y < height {
        PixelIndexInRange(width, height, x, y);
        var index := y * width + x;
        if Farther(zbuffer[index], depth) {
          buffer[index] := currentColor;
          if emissive {
            emissiveBuffer[index] := currentColor;
          }
          zbuffer[index] := depth;
        }
      }
    }

    method SetBackgroundColor(color: u32)
      requires Valid()
      modifies this`backgroundColor
      ensures Valid() && State() == old(State()).(background := color)
    {
      backgroundColor := color;
    }

    method SetCurrentColor(color: u32)
      requires Valid()
      modifies this`currentColor
      ensures Valid() && State() == old(State()).(current := color)
    {
      currentColor := color;
    }
  }

  /** `post_process(framebuffer)`. */
  method PostProcess(fb: Framebuffer)
    requires fb.Valid()
    modifies fb.buffer
    ensures fb.Valid() && fb.State() == PostProcessed(old(fb.State()))
  {
    ghost var target := PostProcessed(fb.State()).colors;
    var i := 0;
    while i < fb.buffer.Length
      invariant 0 <= i <= fb.buffer.Length
      invariant forall k :: 0 <= k < i ==> fb.buffer[k] == target[k]
      invariant forall k :: i <= k < fb.buffer.Length ==> fb.buffer[k] == old(fb.buffer[k])
    {
      var emissive := fb.emissiveBuffer[i];
      var finalColor := BlendAdd(fb.buffer[i], emissive);
      fb.buffer[i] := finalColor;
      i := i + 1;
    }
    assert fb.buffer[..] == target;
  }
}
