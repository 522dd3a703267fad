// Primary-ray generation of sched_common.h: the pixel to normalised-device
// mapping of `make_primary_ray_impl`, the sub-pixel offsets chosen by each
// pixel-sampler tag (`make_primary_ray`), and the batch loop
// `make_primary_rays`.
//
// A ray is kept abstract: it records the camera and the normalised-device
// coordinates (u, v) it was built from. The vector maths that turns those into
// an origin and a normalised direction is not part of this model.

module PrimaryRays {
  import opened Geometry

  /** Pixel extents of the image. */
  datatype Viewport = Viewport(w: nat, h: nat)

  predicate NonEmpty(vp: Viewport)
  {
    vp.w > 0 && vp.h > 0
  }

  /** The two camera forms accepted by `make_primary_ray_impl`. */
  datatype Camera =
    | Basis(eye: Vec3, camU: Vec3, camV: Vec3, camW: Vec3)
    | Matrices(m: ViewProj)

  /** A primary ray, given by its camera and normalised-device coordinates. */
  datatype Ray = Ray(camera: Camera, u: real, v: real)

  /** Pixel-sampler tags (`pixel_sampler::uniform_type`, `jittered_type`,
      `jittered_blend_type`, `ssaa_type<n>`). */
  datatype PixelSampler = Uniform | Jittered | JitteredBlend | Ssaa(n: nat)

  /** The order in which the compiler evaluates the two `samp.next()` calls
      that are the constructor arguments of the jitter vector; C++ leaves it
      unspecified. */
  datatype EvalOrder = LeftFirst | RightFirst

  /** A sub-pixel displacement from the pixel centre: it is added to the
      integer pixel coordinate, and the NDC map adds the half pixel. */
  datatype Offset = Offset(dx: real, dy: real)

  predicate InHalfPixel(o: Offset)
  {
    -0.5 <= o.dx <= 0.5 && -0.5 <= o.dy <= 0.5
  }

  /** The pseudo-random source: an endless stream of draws and the position
      of the next one. `next()` returns the draw at the cursor and advances it. */
  datatype Sampler = Sampler(draws: nat -> real, cursor: nat)

  /** The sampler contract: every draw lies in [0, 1). */
  ghost predicate UnitDraws(samp: Sampler)
  {
    forall i :: 0.0 <= samp.draws(i) < 1.0
  }

  function Advance(samp: Sampler, k: nat): Sampler
  {
    samp.(cursor := samp.cursor + k)
  }

  function Next(samp: Sampler): (real, Sampler)
  {
    (samp.draws(samp.cursor), Advance(samp, 1))
  }

  //-----------------------------------------------------------------------------
  // Normalised device coordinates

  /** `2 * (p + 0.5) / extent - 1`, the mapping of both `make_primary_ray_impl`
      overloads (one call per axis). */
  function Ndc(p: real, extent: nat): (u: real)
    requires extent > 0
    ensures p == (u + 1.0) * extent as real / 2.0 - 0.5
  {
    var e := extent as real;
    var u := 2.0 * (p + 0.5) / e - 1.0;
    assert (u + 1.0) * e == 2.0 * (p + 0.5);
    u
  }

  /** A pixel index inside the image, displaced by at most half a pixel, lands
      in [-1, 1]; the undisplaced pixel centre lands strictly inside. */
  lemma NdcBounds(i: nat, o: real, extent: nat)
    requires i < extent && -0.5 <= o <= 0.5
    ensures -1.0 <= Ndc(i as real + o, extent) <= 1.0
    ensures o == 0.0 ==> -1.0 < Ndc(i as real + o, extent) < 1.0
  {
    var e := extent as real;
    var t := i as real + o + 0.5;
    assert 0.0 <= t <= e;
    assert 0.0 <= 2.0 * t / e <= 2.0 by {
      DivBounds(2.0 * t, 2.0 * e, e);
    }
    if o == 0.0 {
      assert 0.0 < t < e;
      StrictDivBounds(2.0 * t, 2.0 * e, e);
    }
  }

  lemma DivBounds(a: real, b: real, e: real)
    requires e > 0.0 && 0.0 <= a <= b
    ensures 0.0 <= a / e <= b / e
  {
  }

  lemma StrictDivBounds(a: real, b: real, e: real)
    requires e > 0.0 && 0.0 < a < b && b == 2.0 * e
    ensures 0.0 < a / e < 2.0
  {
    assert b / e == 2.0;
    assert a / e < b / e;
  }

  /** `make_primary_ray_impl`, for either camera form. */
  function MakePrimaryRayImpl(px: real, py: real, vp: Viewport, cam: Camera): (r: Ray)
    requires NonEmpty(vp)
    ensures r.camera == cam
    ensures px == (r.u + 1.0) * vp.w as real / 2.0 - 0.5
    ensures py == (r.v + 1.0) * vp.h as real / 2.0 - 0.5
  {
    Ray(cam, Ndc(px, vp.w), Ndc(py, vp.h))
  }

  //-----------------------------------------------------------------------------
  // Sub-pixel offsets

  /** The tags for which a `make_primary_ray` overload exists.
      `jittered_blend_type` uses the jittered overload. */
  predicate GeneratesRays(s: PixelSampler)
  {
    match s
    case Ssaa(n) => n == 2 || n == 4 || n == 8
    case _ => true
  }

  predicate UsesSampler(s: PixelSampler)
  {
    s.Jittered? || s.JitteredBlend?
  }

  /** Rays produced by one `make_primary_ray` call. */
  function SampleCount(s: PixelSampler): nat
  {
    if s.Ssaa? then s.n else 1
  }

  /** Draws taken from the sampler by one `make_primary_ray` call. */
  function DrawsPerCall(s: PixelSampler): nat
  {
    if UsesSampler(s) then 2 else 0
  }

  /** 2x SSAA: two diagonal samples a quarter pixel from the centre. */
  function Ssaa2Offsets(): (r: seq<Offset>)
    ensures |r| == 2 && forall i :: 0 <= i < 2 ==> InHalfPixel(r[i])
  {
    [Offset(-0.25, -0.25), Offset(0.25, 0.25)]
  }

  /** 4x SSAA: the rotated-grid pattern with magnitudes 0.125 and 0.375. */
  function Ssaa4Offsets(): (r: seq<Offset>)
    ensures |r| == 4 && forall i :: 0 <= i < 4 ==> InHalfPixel(r[i])
  {
    [ Offset(-0.125, -0.375), Offset(0.375, -0.125),
      Offset(0.125, 0.375), Offset(-0.375, 0.125) ]
  }

  /** 8x SSAA, with the literals exactly as the source has them, including the
      y offset 0.1825 of the sixth sample (see Ssaa8OffsetsAsWritten and the
      corrected table Ssaa8OffsetsCorrected). */
  function Ssaa8Offsets(): (r: seq<Offset>)
    ensures |r| == 8 && forall i :: 0 <= i < 8 ==> InHalfPixel(r[i])
  {
    [ Offset(-0.125, -0.4375), Offset(0.375, -0.3125),
      Offset(-0.375, -0.1875), Offset(0.125, -0.0625),
      Offset(-0.125, 0.0625), Offset(0.375, 0.1825),
      Offset(-0.375, 0.3125), Offset(0.125, 0.4375) ]
  }

  function SumDx(offs: seq<Offset>): real
  {
    if offs == [] then 0.0 else SumDx(offs[..|offs| - 1]) + offs[|offs| - 1].dx
  }

  function SumDy(offs: seq<Offset>): real
  {
    if offs == [] then 0.0 else SumDy(offs[..|offs| - 1]) + offs[|offs| - 1].dy
  }

  /** A supersampling pattern is centred when its mean offset is zero, so that
      the samples are balanced around the pixel centre. */
  predicate Centred(offs: seq<Offset>)
  {
    SumDx(offs) == 0.0 && SumDy(offs) == 0.0
  }

  function Mirror(o: Offset): Offset
  {
    Offset(-o.dx, -o.dy)
  }

  /** Every sample of the pattern, mirrored through the pixel centre, is a
      sample of the pattern too. */
  predicate PointSymmetric(offs: seq<Offset>)
  {
    forall k :: 0 <= k < |offs| ==> Mirror(offs[k]) in offs
  }

  /** Point symmetry shown by a pairing: sample k mirrors onto sample pair(k). */
  lemma PointSymmetricBy(offs: seq<Offset>, pair: nat -> nat)
    requires forall k :: 0 <= k < |offs| ==> pair(k) < |offs| && offs[pair(k)] == Mirror(offs[k])
    ensures PointSymmetric(offs)
  {
    forall k | 0 <= k < |offs|
      ensures Mirror(offs[k]) in offs
    {
      assert offs[pair(k)] == Mirror(offs[k]);
    }
  }

  /** The sums written out term by term, for patterns of up to eight samples. */
  lemma SumsOfPrefixes(p: seq<Offset>)
    requires 1 <= |p| <= 8
    ensures SumDx(p[..1]) == p[0].dx && SumDy(p[..1]) == p[0].dy
    ensures forall k :: 1 <= k < |p| ==>
      SumDx(p[..k + 1]) == SumDx(p[..k]) + p[k].dx && SumDy(p[..k + 1]) == SumDy(p[..k]) + p[k].dy
    ensures SumDx(p) == SumDx(p[..|p|]) && SumDy(p) == SumDy(p[..|p|])
  {
    assert p[..1][..0] == [];
    assert p[..|p|] == p;
    forall k | 1 <= k < |p|
      ensures SumDx(p[..k + 1]) == SumDx(p[..k]) + p[k].dx && SumDy(p[..k + 1]) == SumDy(p[..k]) + p[k].dy
    {
      assert p[..k + 1][..k] == p[..k];
    }
  }


  /** As written, the 8x pattern is neither centred nor point-symmetric: its
      sixth y offset 0.1825 does not mirror the third one, -0.1875, and the
      y offsets sum to -0.005 instead of 0, while the x offsets sum to 0. */
  lemma Ssaa8OffsetsAsWritten()
    ensures SumDx(Ssaa8Offsets()) == 0.0
    ensures SumDy(Ssaa8Offsets()) == -0.005
    ensures !Centred(Ssaa8Offsets()) && !PointSymmetric(Ssaa8Offsets())
  {
    var p := Ssaa8Offsets();
    SumsOfPrefixes(p);
    assert p[3].dy == -0.0625 && p[4].dy == 0.0625;
    assert SumDy(p[..2]) == -0.75;
    assert SumDy(p[..3]) == -0.9375;
    assert SumDy(p[..4]) == SumDy(p[..3]) + p[3].dy == -1.0;
    assert SumDy(p[..5]) == SumDy(p[..4]) + p[4].dy == -0.9375;
    assert SumDy(p[..6]) == -0.755;
    assert SumDy(p[..7]) == -0.4425;
    assert p[1].dx == 0.375 && p[2].dx == -0.375 && p[3].dx == 0.125;
    assert p[4].dx == -0.125 && p[5].dx == 0.375 && p[6].dx == -0.375 && p[7].dx == 0.125;
    assert SumDx(p[..2]) == 0.25;
    assert SumDx(p[..3]) == -0.125;
    assert SumDx(p[..4]) == 0.0;
    assert SumDx(p[..5]) == -0.125;
    assert SumDx(p[..6]) == 0.25;
    assert SumDx(p[..7]) == -0.125;
    assert Mirror(p[2]) == Offset(0.375, 0.1875) && Mirror(p[2]) !in p;
  }

  /** The 8x pattern with 0.1875 in place of 0.1825: the other seven samples
      are unchanged, and the sixth now mirrors the third through the pixel
      centre, as each sample k mirrors sample 7 - k. */
  function Ssaa8OffsetsCorrected(): (r: seq<Offset>)
    ensures |r| == 8 && forall i :: 0 <= i < 8 ==> InHalfPixel(r[i])
    ensures forall i :: 0 <= i < 8 && i != 5 ==> r[i] == Ssaa8Offsets()[i]
    ensures r[5] == Mirror(r[2]) != Ssaa8Offsets()[5]
  {
    [ Offset(-0.125, -0.4375), Offset(0.375, -0.3125),
      Offset(-0.375, -0.1875), Offset(0.125, -0.0625),
      Offset(-0.125, 0.0625), Offset(0.375, 0.1875),
      Offset(-0.375, 0.3125), Offset(0.125, 0.4375) ]
  }

  /** The jitter vector `(next() - 0.5, next() - 0.5)`: it takes exactly the
      next two draws, one per axis, in an order fixed by the compiler. */
  function Jitter(samp: Sampler, order: EvalOrder): (r: (Offset, Sampler))
    ensures r.1 == Advance(samp, 2)
    ensures multiset{r.0.dx + 0.5, r.0.dy + 0.5}
         == multiset{samp.draws(samp.cursor), samp.draws(samp.cursor + 1)}
    ensures UnitDraws(samp) ==>
      -0.5 <= r.0.dx < 0.5 && -0.5 <= r.0.dy < 0.5
  {
    var (a, s1) := Next(samp);
    var (b, s2) := Next(s1);
    var o := match order
      case LeftFirst => Offset(a - 0.5, b - 0.5)
      case RightFirst => Offset(b - 0.5, a - 0.5);
    (o, s2)
  }

  /** The offsets of one `make_primary_ray` call, in the order the rays are
      returned, and the sampler afterwards. */
  function Offsets(s: PixelSampler, samp: Sampler, order: EvalOrder): (r: (seq<Offset>, Sampler))
    requires GeneratesRays(s)
    ensures |r.0| == SampleCount(s)
    ensures r.1 == Advance(samp, DrawsPerCall(s))
    ensures !UsesSampler(s) || UnitDraws(samp) ==>
      forall i :: 0 <= i < |r.0| ==> InHalfPixel(r.0[i])
    ensures s.Uniform? ==> r.0 == [Offset(0.0, 0.0)]
    ensures s.Ssaa? ==> r.0 == SsaaTable(s.n)
    ensures UsesSampler(s) ==> r.0 == [Jitter(samp, order).0]
  {
    match s
    case Uniform => ([Offset(0.0, 0.0)], samp)
    case Jittered => var (o, s') := Jitter(samp, order); ([o], s')
    case JitteredBlend => var (o, s') := Jitter(samp, order); ([o], s')
    case Ssaa(n) =>
      (SsaaTable(n), samp)
  }

  /** The literal table of the `ssaa_type<n>` overload, as written. */
  function SsaaTable(n: nat): seq<Offset>
    requires n == 2 || n == 4 || n == 8
  {
    if n == 2 then Ssaa2Offsets() else if n == 4 then Ssaa4Offsets() else Ssaa8Offsets()
  }

  /** Of the patterns that do not consume draws, the single uniform sample and
      the 2x and 4x tables are point-symmetric about the pixel centre and
      centred on it; the 8x table as written is neither. */
  lemma FixedPatternsCentred(s: PixelSampler, samp: Sampler, order: EvalOrder)
    requires GeneratesRays(s) && !UsesSampler(s)
    ensures PointSymmetric(Offsets(s, samp, order).0) && Centred(Offsets(s, samp, order).0)
        <==> s != Ssaa(8)
  {
    if s.Uniform? {
      PointSymmetricBy([Offset(0.0, 0.0)], k => k);
    } else if s.n == 2 {
      Ssaa2Centred();
    } else if s.n == 4 {
      Ssaa4Centred();
    } else {
      Ssaa8OffsetsAsWritten();
    }
  }

  lemma Ssaa2Centred()
    ensures PointSymmetric(Ssaa2Offsets()) && Centred(Ssaa2Offsets())
  {
    SumsOfPrefixes(Ssaa2Offsets());
    PointSymmetricBy(Ssaa2Offsets(), k => if k == 0 then 1 else 0);
  }

  lemma Ssaa4Centred()
    ensures PointSymmetric(Ssaa4Offsets()) && Centred(Ssaa4Offsets())
  {
    Ssaa4Symmetric();
    var r := Ssaa4Offsets();
    SumsOfPrefixes(r);
    assert r[1].dx == 0.375 && r[2].dx == 0.125 && r[3].dx == -0.375;
    assert r[1].dy == -0.125 && r[2].dy == 0.375 && r[3].dy == 0.125;
    assert SumDx(r[..2]) == 0.25 && SumDy(r[..2]) == -0.5;
    assert SumDx(r[..3]) == 0.375 && SumDy(r[..3]) == -0.125;
  }

  /** Sample k of the 4x pattern mirrors sample k + 2 (mod 4). */
  lemma Ssaa4Symmetric()
    ensures forall k :: 0 <= k < 4 ==> Ssaa4Offsets()[(k + 2) % 4] == Mirror(Ssaa4Offsets()[k])
    ensures PointSymmetric(Ssaa4Offsets())
  {
    var r := Ssaa4Offsets();
    assert r[2] == Mirror(r[0]) && r[3] == Mirror(r[1]) && r[0] == Mirror(r[2]) && r[1] == Mirror(r[3]);
    forall k | 0 <= k < 4
      ensures r[(k + 2) % 4] == Mirror(r[k])
      ensures r[if k < 2 then k + 2 else k - 2] == Mirror(r[k])
    {
      assert (k + 2) % 4 == if k < 2 then k + 2 else k - 2;
    }
    PointSymmetricBy(r, k => if k < 2 then k + 2 else k - 2);
  }

  lemma Ssaa8Centred()
    ensures PointSymmetric(Ssaa8OffsetsCorrected()) && Centred(Ssaa8OffsetsCorrected())
  {
    Ssaa8CorrectedSymmetric();
    Ssaa8CorrectedSumDx();
    Ssaa8CorrectedSumDy();
  }

  lemma Ssaa8CorrectedSumDx()
    ensures SumDx(Ssaa8OffsetsCorrected()) == 0.0
  {
    var r := Ssaa8OffsetsCorrected();
    SumsOfPrefixes(r);
    assert r[1].dx == 0.375 && r[2].dx == -0.375 && r[3].dx == 0.125;
    assert r[4].dx == -0.125 && r[5].dx == 0.375 && r[6].dx == -0.375 && r[7].dx == 0.125;
    assert SumDx(r[..2]) == 0.25;
    assert SumDx(r[..3]) == -0.125;
    assert SumDx(r[..4]) == 0.0;
    assert SumDx(r[..5]) == -0.125;
    assert SumDx(r[..6]) == 0.25;
    assert SumDx(r[..7]) == -0.125;
  }

  lemma Ssaa8CorrectedSumDy()
    ensures SumDy(Ssaa8OffsetsCorrected()) == 0.0
  {
    var r := Ssaa8OffsetsCorrected();
    SumsOfPrefixes(r);
    assert r[1].dy == -0.3125 && r[2].dy == -0.1875 && r[3].dy == -0.0625;
    assert r[4].dy == 0.0625 && r[5].dy == 0.1875 && r[6].dy == 0.3125 && r[7].dy == 0.4375;
    assert SumDy(r[..2]) == -0.75;
    assert SumDy(r[..3]) == -0.9375;
    assert SumDy(r[..4]) == -1.0;
    assert SumDy(r[..5]) == -0.9375;
    assert SumDy(r[..6]) == -0.75;
    assert SumDy(r[..7]) == -0.4375;
  }

  /** Sample k of the corrected 8x pattern mirrors sample 7 - k. */
  lemma Ssaa8CorrectedSymmetric()
    ensures forall k :: 0 <= k < 8 ==> Ssaa8OffsetsCorrected()[7 - k] == Mirror(Ssaa8OffsetsCorrected()[k])
    ensures PointSymmetric(Ssaa8OffsetsCorrected())
  {
    var r := Ssaa8OffsetsCorrected();
    forall k | 0 <= k < 8
      ensures r[7 - k] == Mirror(r[k])
    {
      assert r[0] == Mirror(r[7]) && r[1] == Mirror(r[6]) && r[2] == Mirror(r[5]) && r[3] == Mirror(r[4]);
    }
    PointSymmetricBy(r, k => if k <= 7 then 7 - k else 0);
  }

  /** The fixed patterns do not look at the sampler. */
  lemma FixedOffsetsIgnoreSampler(s: PixelSampler, s1: Sampler, s2: Sampler, o1: EvalOrder, o2: EvalOrder)
    requires GeneratesRays(s) && !UsesSampler(s)
    ensures Offsets(s, s1, o1).0 == Offsets(s, s2, o2).0
  {
  }

  //-----------------------------------------------------------------------------
  // make_primary_ray and make_primary_rays

  /** `make_primary_ray`: one ray per offset, the offset added to the pixel
      coordinate before the NDC mapping. For a pixel inside the image every
      ray lies in [-1, 1]^2 in NDC (given a sampler that keeps its contract),
      and the uniform ray lies strictly inside. */
  function MakePrimaryRay(s: PixelSampler, samp: Sampler, x: nat, y: nat, vp: Viewport,
                          cam: Camera, order: EvalOrder): (r: (seq<Ray>, Sampler))
    requires NonEmpty(vp) && GeneratesRays(s)
    ensures |r.0| == SampleCount(s)
    ensures r.1 == Advance(samp, DrawsPerCall(s))
    ensures forall i :: 0 <= i < |r.0| ==> r.0[i].camera == cam
    ensures x < vp.w && y < vp.h && (!UsesSampler(s) || UnitDraws(samp)) ==>
      forall i :: 0 <= i < |r.0| ==>
        -1.0 <= r.0[i].u <= 1.0 && -1.0 <= r.0[i].v <= 1.0
    ensures x < vp.w && y < vp.h && s.Uniform? ==>
      -1.0 < r.0[0].u < 1.0 && -1.0 < r.0[0].v < 1.0
  {
    var (offs, samp') := Offsets(s, samp, order);
    (RaysAt(offs, x, y, vp, cam), samp')
  }

  /** One ray per offset from pixel (x, y), in the order of the offsets. */
  function RaysAt(offs: seq<Offset>, x: nat, y: nat, vp: Viewport, cam: Camera): (r: seq<Ray>)
    requires NonEmpty(vp)
    ensures |r| == |offs|
    ensures forall i :: 0 <= i < |r| ==>
      r[i] == MakePrimaryRayImpl(x as real + offs[i].dx, y as real + offs[i].dy, vp, cam)
    ensures x < vp.w && y < vp.h && (forall i :: 0 <= i < |offs| ==> InHalfPixel(offs[i])) ==>
      forall i :: 0 <= i < |r| ==> -1.0 <= r[i].u <= 1.0 && -1.0 <= r[i].v <= 1.0
    ensures x < vp.w && y < vp.h && offs == [Offset(0.0, 0.0)] ==>
      -1.0 < r[0].u < 1.0 && -1.0 < r[0].v < 1.0
  {
    OffsetRaysInNdc(offs, x, y, vp, cam);
    seq(|offs|, i requires 0 <= i < |offs| =>
      MakePrimaryRayImpl(x as real + offs[i].dx, y as real + offs[i].dy, vp, cam))
  }

  /** Rays built from in-range offsets at a pixel inside the image stay in
      [-1, 1]^2; a ray at offset (0, 0) stays strictly inside. */
  lemma OffsetRaysInNdc(offs: seq<Offset>, x: nat, y: nat, vp: Viewport, cam: Camera)
    requires NonEmpty(vp)
    ensures x < vp.w && y < vp.h && (forall i :: 0 <= i < |offs| ==> InHalfPixel(offs[i])) ==>
      forall i :: 0 <= i < |offs| ==>
        var r := MakePrimaryRayImpl(x as real + offs[i].dx, y as real + offs[i].dy, vp, cam);
        -1.0 <= r.u <= 1.0 && -1.0 <= r.v <= 1.0
    ensures x < vp.w && y < vp.h && offs == [Offset(0.0, 0.0)] ==>
      var r := MakePrimaryRayImpl(x as real, y as real, vp, cam);
      -1.0 < r.u < 1.0 && -1.0 < r.v < 1.0
  {
    if x < vp.w && y < vp.h {
      forall i | 0 <= i < |offs| && InHalfPixel(offs[i])
        ensures var r := MakePrimaryRayImpl(x as real + offs[i].dx, y as real + offs[i].dy, vp, cam);
          -1.0 <= r.u <= 1.0 && -1.0 <= r.v <= 1.0
      {
        NdcBounds(x, offs[i].dx, vp.w);
        NdcBounds(y, offs[i].dy, vp.h);
      }
      NdcBounds(x, 0.0, vp.w);
      NdcBounds(y, 0.0, vp.h);
    }
  }

  /** The k-th ray of a `make_primary_ray` call is built from the k-th
      offset. */
  lemma MakePrimaryRayAtOffset(s: PixelSampler, samp: Sampler, x: nat, y: nat, vp: Viewport,
                               cam: Camera, order: EvalOrder, k: nat)
    requires NonEmpty(vp) && GeneratesRays(s) && k < SampleCount(s)
    ensures var o := Offsets(s, samp, order).0[k];
      MakePrimaryRay(s, samp, x, y, vp, cam, order).0[k]
        == Ray(cam, Ndc(x as real + o.dx, vp.w), Ndc(y as real + o.dy, vp.h))
  {
  }

  /** Each supersampling ray is built at the offset the source's table gives
      for it, literals as written. */
  lemma SsaaRaysAtTable(n: nat, samp: Sampler, x: nat, y: nat, vp: Viewport, cam: Camera,
                        order: EvalOrder)
    requires NonEmpty(vp) && (n == 2 || n == 4 || n == 8)
    ensures var r := MakePrimaryRay(Ssaa(n), samp, x, y, vp, cam, order).0;
      |r| == |SsaaTable(n)| == n &&
      forall k :: 0 <= k < n ==>
        r[k] == Ray(cam, Ndc(x as real + SsaaTable(n)[k].dx, vp.w), Ndc(y as real + SsaaTable(n)[k].dy, vp.h))
  {
  }

  /** `make_primary_rays`: `num` calls of the single-ray `make_primary_ray`,
      the sampler threaded through them, the results stored in order. */
  method MakePrimaryRays(s: PixelSampler, num: nat, samp: Sampler, x: nat, y: nat,
                         vp: Viewport, cam: Camera, order: EvalOrder)
    returns (rays: seq<Ray>, samp': Sampler)
    requires NonEmpty(vp) && (s.Uniform? || UsesSampler(s))
    ensures |rays| == num
    ensures samp' == Advance(samp, num * DrawsPerCall(s))
    ensures forall i :: 0 <= i < num ==>
      [rays[i]] == MakePrimaryRay(s, Advance(samp, i * DrawsPerCall(s)), x, y, vp, cam, order).0
  {
    var d := DrawsPerCall(s);
    rays, samp' := [], samp;
    var i := 0;
    while i < num
      invariant 0 <= i <= num && |rays| == i
      invariant samp' == Advance(samp, i * d)
      invariant forall j :: 0 <= j < i ==>
        [rays[j]] == MakePrimaryRay(s, Advance(samp, j * d), x, y, vp, cam, order).0
    {
      var (r, next) := MakePrimaryRay(s, samp', x, y, vp, cam, order);
      assert (i + 1) * d == i * d + d;
      rays := rays + [r[0]];
      samp' := next;
      i := i + 1;
    }
  }
}
