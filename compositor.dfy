// The pixel compositor of sched_common.h: the `sample_pixel_impl` overloads,
// which call the kernel on the pixel's ray(s) and write or blend the results
// into the render target.
//
// The kernel is an abstract function of the ray. Its second call form also
// receives the sampler, which it may advance, so it returns the sampler
// afterwards. The remaining arguments (`args...`) are the view and projection
// matrices that `depth_transform` needs.

module Compositor {
  import opened Geometry
  import opened PrimaryRays
  import opened Accumulation
  import opened RenderTargets

  /** What the kernel reports for one ray. */
  datatype Sample = Sample(color: real, hit: bool, isectPos: Vec3)

  /** The kernel's two call forms: `kernel(ray)` and `kernel(ray, samp)`. */
  datatype Kernel = Kernel(trace: Ray -> Sample, traceWith: (Ray, Sampler) -> (Sample, Sampler))

  /** `depth_transform` is only evaluated to any effect on a hit, and there it
      divides by the clip-space w. */
  predicate DepthDefined(s: Sample, cam: ViewProj)
  {
    s.hit ==> Projectable(s.isectPos, cam)
  }

  /** `select(hit, depth_transform(isect_pos, ...), 1.0)`: a miss is placed on
      the far plane, a hit at its remapped device depth. */
  function SampleDepth(s: Sample, cam: ViewProj): (d: real)
    requires DepthDefined(s, cam)
    ensures !s.hit ==> d == 1.0
    ensures s.hit ==> var c := ClipPosition(s.isectPos, cam);
      2.0 * d - 1.0 == c.z / c.w && (-1.0 <= c.z / c.w <= 1.0 <==> 0.0 <= d <= 1.0)
  {
    if s.hit then DepthTransform(s.isectPos, cam) else 1.0
  }

  /** `kernel(ray)` on each ray, in order. */
  function TraceAll(k: Kernel, rays: seq<Ray>): (r: seq<Sample>)
    ensures |r| == |rays|
  {
    seq(|rays|, i requires 0 <= i < |rays| => k.trace(rays[i]))
  }

  /** `kernel(ray, samp)` on each ray, in order, the sampler passed from each
      call to the next. */
  function TraceAllWith(k: Kernel, rays: seq<Ray>, samp: Sampler): (r: (seq<Sample>, Sampler))
    ensures |r.0| == |rays|
  {
    if rays == [] then ([], samp)
    else
      var (init, s1) := TraceAllWith(k, rays[..|rays| - 1], samp);
      var (last, s2) := k.traceWith(rays[|rays| - 1], s1);
      (init + [last], s2)
  }

  function Colors(samples: seq<Sample>): (r: seq<real>)
    ensures |r| == |samples|
  {
    seq(|samples|, i requires 0 <= i < |samples| => samples[i].color)
  }

  function Depths(samples: seq<Sample>, cam: ViewProj): (r: seq<real>)
    requires forall i :: 0 <= i < |samples| ==> DepthDefined(samples[i], cam)
    ensures |r| == |samples|
  {
    seq(|samples|, i requires 0 <= i < |samples| => SampleDepth(samples[i], cam))
  }

  /** Tracing one more ray of the array appends one more sample. */
  lemma TraceAllSnoc(k: Kernel, rays: seq<Ray>, j: nat)
    requires j < |rays|
    ensures TraceAll(k, rays[..j + 1]) == TraceAll(k, rays[..j]) + [k.trace(rays[j])]
  {
  }

  lemma ColorsSnoc(samples: seq<Sample>, s: Sample)
    ensures Colors(samples + [s]) == Colors(samples) + [s.color]
  {
  }

  lemma DepthsSnoc(samples: seq<Sample>, s: Sample, cam: ViewProj)
    requires forall i :: 0 <= i < |samples| ==> DepthDefined(samples[i], cam)
    requires DepthDefined(s, cam)
    ensures Depths(samples + [s], cam) == Depths(samples, cam) + [SampleDepth(s, cam)]
  {
  }

  //-----------------------------------------------------------------------------
  // The overload set as one specification

  /** The ray argument: one ray, or a fixed-size array of them. */
  datatype RayArg = Single(ray: Ray) | Batch(rays: seq<Ray>)

  /** The combinations of sampler tag, render-target kind and ray argument for
      which a `sample_pixel_impl` overload exists. */
  predicate Supported(s: PixelSampler, hasDepth: bool, rays: RayArg)
  {
    match rays
    case Single(_) => s.Uniform? || s.JitteredBlend? || (s.Jittered? && !hasDepth)
    case Batch(rs) => (s.JitteredBlend? && !hasDepth) || (s.Ssaa? && s.n == |rs|)
  }

  /** What the source asks of `frame_num`: jittered blending divides by it. */
  predicate FrameOk(s: PixelSampler, frameNum: nat)
  {
    s.JitteredBlend? ==> frameNum >= 1
  }

  /** The depth of every sample that a depth-writing overload stores can be
      computed. */
  predicate DepthsDefined(k: Kernel, s: PixelSampler, rays: RayArg, samp: Sampler,
                          hasDepth: bool, cam: ViewProj)
  {
    hasDepth ==>
      match rays
      case Single(r) =>
        (s.Uniform? ==> DepthDefined(k.trace(r), cam)) &&
        (s.JitteredBlend? ==> DepthDefined(k.traceWith(r, samp).0, cam))
      case Batch(rs) =>
        s.Ssaa? ==> forall i :: 0 <= i < |rs| ==> DepthDefined(k.trace(rs[i]), cam)
  }

  /** The pixel and sampler after one `sample_pixel_impl` call, from the pixel
      before it. Without a depth channel the depth is left as it was; uniform
      and supersampling calls leave the sampler alone. */
  function Composite(k: Kernel, s: PixelSampler, rays: RayArg, samp: Sampler, frameNum: nat,
                     hasDepth: bool, cam: ViewProj, prev: Pixel): (r: (Pixel, Sampler))
    requires Supported(s, hasDepth, rays) && FrameOk(s, frameNum)
    requires DepthsDefined(k, s, rays, samp, hasDepth, cam)
    ensures !hasDepth ==> r.0.depth == prev.depth
    ensures !UsesSampler(s) ==> r.1 == samp
  {
    match rays
    case Single(ray) =>
      if s.Uniform? then
        var res := k.trace(ray);
        (Pixel(res.color, if hasDepth then SampleDepth(res, cam) else prev.depth), samp)
      else if s.Jittered? then
        var (res, samp') := k.traceWith(ray, samp);
        (Pixel(res.color, prev.depth), samp')
      else
        var (res, samp') := k.traceWith(ray, samp);
        var d := if hasDepth then FrameBlend(prev.depth, SampleDepth(res, cam), frameNum) else prev.depth;
        (Pixel(FrameBlend(prev.color, res.color, frameNum), d), samp')
    case Batch(rs) =>
      if s.JitteredBlend? then
        var (samples, samp') := TraceAllWith(k, rs, samp);
        (Pixel(BlendFrames(prev.color, Colors(samples), frameNum), prev.depth), samp')
      else
        var samples := TraceAll(k, rs);
        var d := if hasDepth then SsaaBlend(0.0, Depths(samples, cam), s.n) else prev.depth;
        (Pixel(SsaaBlend(0.0, Colors(samples), s.n), d), samp)
  }

  //-----------------------------------------------------------------------------
  // The sample_pixel_impl overloads

  /** Uniform sampler, colour only: the kernel result overwrites the colour. */
  method SampleUniformColor(k: Kernel, r: Ray, samp: Sampler, frameNum: nat,
                            rt: RenderTarget, x: nat, y: nat, vp: Viewport, cam: ViewProj)
    requires rt.Valid(vp) && !rt.hasDepth && x < vp.w && y < vp.h
    modifies rt.color
    ensures rt.color[..] == old(rt.color[..])[PixelIndex(x, y, vp) := k.trace(r).color]
  {
    var result := k.trace(r);
    rt.Store(x, y, vp, result.color);
  }

  /** Uniform sampler, colour and depth: colour and the hit-guarded depth
      overwrite the pixel. */
  method SampleUniformDepth(k: Kernel, r: Ray, samp: Sampler, frameNum: nat,
                            rt: RenderTarget, x: nat, y: nat, vp: Viewport, cam: ViewProj)
    requires rt.Valid(vp) && rt.hasDepth && x < vp.w && y < vp.h
    requires DepthDefined(k.trace(r), cam)
    modifies rt.color, rt.depth
    ensures rt.color[..] == old(rt.color[..])[PixelIndex(x, y, vp) := k.trace(r).color]
    ensures rt.depth[..] == old(rt.depth[..])[PixelIndex(x, y, vp) := SampleDepth(k.trace(r), cam)]
  {
    var result := k.trace(r);
    var d := SampleDepth(result, cam);
    rt.StoreWithDepth(x, y, vp, result.color, d);
  }

  /** Jittered sampler, colour only: the kernel gets the sampler, and its
      result overwrites the colour. */
  method SampleJitteredColor(k: Kernel, r: Ray, samp: Sampler, frameNum: nat,
                             rt: RenderTarget, x: nat, y: nat, vp: Viewport, cam: ViewProj)
    returns (samp': Sampler)
    requires rt.Valid(vp) && !rt.hasDepth && x < vp.w && y < vp.h
    modifies rt.color
    ensures samp' == k.traceWith(r, samp).1
    ensures rt.color[..] == old(rt.color[..])[PixelIndex(x, y, vp) := k.traceWith(r, samp).0.color]
  {
    var out := k.traceWith(r, samp);
    var result := out.0;
    samp' := out.1;
    rt.Store(x, y, vp, result.color);
  }

  /** Jittered blend, colour only: clear on the first frame, then blend with
      weight `1/frame_num`. */
  method SampleJitteredBlendColor(k: Kernel, r: Ray, samp: Sampler, frameNum: nat,
                                  rt: RenderTarget, x: nat, y: nat, vp: Viewport, cam: ViewProj)
    returns (samp': Sampler)
    requires rt.Valid(vp) && !rt.hasDepth && x < vp.w && y < vp.h
    requires frameNum >= 1
    modifies rt.color
    ensures samp' == k.traceWith(r, samp).1
    ensures rt.color[..] == old(rt.color[..])[PixelIndex(x, y, vp) :=
      FrameBlend(old(rt.color[PixelIndex(x, y, vp)]), k.traceWith(r, samp).0.color, frameNum)]
  {
    var out := k.traceWith(r, samp);
    var result := out.0;
    samp' := out.1;
    var alpha := 1.0 / frameNum as real;
    if frameNum <= 1 {
      rt.Store(x, y, vp, 0.0);
    }
    rt.Blend(x, y, vp, result.color, alpha, 1.0 - alpha);
  }

  /** Jittered blend, colour and depth: on the first frame the result itself is
      stored, then colour and depth are blended with weight `1/frame_num`. */
  method SampleJitteredBlendDepth(k: Kernel, r: Ray, samp: Sampler, frameNum: nat,
                                  rt: RenderTarget, x: nat, y: nat, vp: Viewport, cam: ViewProj)
    returns (samp': Sampler)
    requires rt.Valid(vp) && rt.hasDepth && x < vp.w && y < vp.h
    requires frameNum >= 1
    requires DepthDefined(k.traceWith(r, samp).0, cam)
    modifies rt.color, rt.depth
    ensures samp' == k.traceWith(r, samp).1
    ensures rt.color[..] == old(rt.color[..])[PixelIndex(x, y, vp) :=
      FrameBlend(old(rt.color[PixelIndex(x, y, vp)]), k.traceWith(r, samp).0.color, frameNum)]
    ensures rt.depth[..] == old(rt.depth[..])[PixelIndex(x, y, vp) :=
      FrameBlend(old(rt.depth[PixelIndex(x, y, vp)]), SampleDepth(k.traceWith(r, samp).0, cam), frameNum)]
  {
    var out := k.traceWith(r, samp);
    var result := out.0;
    samp' := out.1;
    var alpha := 1.0 / frameNum as real;
    var d := SampleDepth(result, cam);
    if frameNum <= 1 {
      rt.StoreWithDepth(x, y, vp, result.color, d);
      assert alpha == 1.0;
    }
    rt.BlendWithDepth(x, y, vp, result.color, d, alpha, 1.0 - alpha);
  }

  /** Jittered blend of several rays at once, colour only: the frame counter
      runs over [frame_num, frame_num + Num), the kernel is called once per
      ray in array order, and each result is blended as a frame of its own. */
  method SampleJitteredBlendBatch(k: Kernel, rays: seq<Ray>, samp: Sampler, frameNum: nat,
                                  rt: RenderTarget, x: nat, y: nat, vp: Viewport, cam: ViewProj)
    returns (samp': Sampler)
    requires rt.Valid(vp) && !rt.hasDepth && x < vp.w && y < vp.h
    requires frameNum >= 1
    modifies rt.color
    ensures samp' == TraceAllWith(k, rays, samp).1
    ensures rt.color[..] == old(rt.color[..])[PixelIndex(x, y, vp) :=
      BlendFrames(old(rt.color[PixelIndex(x, y, vp)]), Colors(TraceAllWith(k, rays, samp).0), frameNum)]
  {
    var i := PixelIndex(x, y, vp);
    ghost var before := rt.color[..];
    ghost var c0 := rt.color[i];
    ghost var samples: seq<Sample> := [];
    var frameEnd := frameNum + |rays|;
    var frame := frameNum;
    samp' := samp;
    while frame < frameEnd
      invariant frameNum <= frame <= frameEnd
      invariant (samples, samp') == TraceAllWith(k, rays[..frame - frameNum], samp)
      invariant rt.color[..] == before[i := BlendFrames(c0, Colors(samples), frameNum)]
    {
      if frame <= 1 {
        rt.Store(x, y, vp, 0.0);
      }
      var ray := rays[frame - frameNum];
      var out := k.traceWith(ray, samp');
      var result := out.0;
      samp' := out.1;
      var alpha := 1.0 / frame as real;
      rt.Blend(x, y, vp, result.color, alpha, 1.0 - alpha);
      assert rays[..frame + 1 - frameNum][..frame - frameNum] == rays[..frame - frameNum];
      assert Colors(samples + [result])[..|samples|] == Colors(samples);
      samples := samples + [result];
      frame := frame + 1;
    }
    assert rays[..frame - frameNum] == rays;
  }

  /** Supersampling, colour only: clear once, then blend each of the Num
      results with weights `1/Num` and 1. */
  method SampleSsaaColor(k: Kernel, rays: seq<Ray>, samp: Sampler, frameNum: nat,
                         rt: RenderTarget, x: nat, y: nat, vp: Viewport, cam: ViewProj)
    requires rt.Valid(vp) && !rt.hasDepth && x < vp.w && y < vp.h
    modifies rt.color
    ensures rt.color[..] == old(rt.color[..])[PixelIndex(x, y, vp) :=
      SsaaBlend(0.0, Colors(TraceAll(k, rays)), |rays|)]
  {
    var num := |rays|;
    ghost var before := rt.color[..];
    rt.Store(x, y, vp, 0.0);
    var i := PixelIndex(x, y, vp);
    ghost var colors: seq<real> := [];
    var frame := 0;
    while frame < num
      invariant 0 <= frame <= num
      invariant colors == Colors(TraceAll(k, rays[..frame]))
      invariant rt.color[..] == before[i := SsaaBlend(0.0, colors, num)]
    {
      var result := k.trace(rays[frame]);
      var alpha := 1.0 / num as real;
      rt.Blend(x, y, vp, result.color, alpha, 1.0);
      assert (colors + [result.color])[..frame] == colors;
      colors := colors + [result.color];
      frame := frame + 1;
    }
    assert rays[..frame] == rays;
  }

  /** Supersampling, colour and depth: store a zero result once, then blend
      each result's colour and hit-guarded depth with weights `1/Num` and 1.
      The loop counts frames from `frame_num`, which changes nothing but the
      counter. */
  method SampleSsaaDepth(k: Kernel, rays: seq<Ray>, samp: Sampler, frameNum: nat,
                         rt: RenderTarget, x: nat, y: nat, vp: Viewport, cam: ViewProj)
    requires rt.Valid(vp) && rt.hasDepth && x < vp.w && y < vp.h
    requires forall j :: 0 <= j < |rays| ==> DepthDefined(k.trace(rays[j]), cam)
    modifies rt.color, rt.depth
    ensures rt.color[..] == old(rt.color[..])[PixelIndex(x, y, vp) :=
      SsaaBlend(0.0, Colors(TraceAll(k, rays)), |rays|)]
    ensures rt.depth[..] == old(rt.depth[..])[PixelIndex(x, y, vp) :=
      SsaaBlend(0.0, Depths(TraceAll(k, rays), cam), |rays|)]
  {
    var num := |rays|;
    ghost var colorBefore, depthBefore := rt.color[..], rt.depth[..];
    rt.StoreWithDepth(x, y, vp, 0.0, 0.0);
    var i := PixelIndex(x, y, vp);
    ghost var colors: seq<real> := [];
    ghost var depths: seq<real> := [];
    var frameEnd := frameNum + num;
    var frame := frameNum;
    while frame < frameEnd
      invariant frameNum <= frame <= frameEnd
      invariant colors == Colors(TraceAll(k, rays[..frame - frameNum]))
      invariant depths == Depths(TraceAll(k, rays[..frame - frameNum]), cam)
      invariant rt.color[..] == colorBefore[i := SsaaBlend(0.0, colors, num)]
      invariant rt.depth[..] == depthBefore[i := SsaaBlend(0.0, depths, num)]
    {
      var j := frame - frameNum;
      var result := k.trace(rays[j]);
      var d := SampleDepth(result, cam);
      var alpha := 1.0 / num as real;
      rt.BlendWithDepth(x, y, vp, result.color, d, alpha, 1.0);
      TraceAllSnoc(k, rays, j);
      ColorsSnoc(TraceAll(k, rays[..j]), result);
      DepthsSnoc(TraceAll(k, rays[..j]), result, cam);
      assert (colors + [result.color])[..j] == colors;
      assert (depths + [d])[..j] == depths;
      colors := colors + [result.color];
      depths := depths + [d];
      frame := frame + 1;
    }
    assert rays[..frame - frameNum] == rays;
  }

  //-----------------------------------------------------------------------------
  // Overload resolution

  /** `sample_pixel_impl` as a whole: the overload is chosen by the sampler
      tag, the render target's channels and the ray argument, and the call
      changes the pixel (x, y) and nothing else as Composite says. */
  method SamplePixelImpl(k: Kernel, s: PixelSampler, rays: RayArg, samp: Sampler, frameNum: nat,
                         rt: RenderTarget, x: nat, y: nat, vp: Viewport, cam: ViewProj)
    returns (samp': Sampler)
    requires rt.Valid(vp) && x < vp.w && y < vp.h
    requires Supported(s, rt.hasDepth, rays) && FrameOk(s, frameNum)
    requires DepthsDefined(k, s, rays, samp, rt.hasDepth, cam)
    modifies rt.color, rt.depth
    ensures var out := Composite(k, s, rays, samp, frameNum, rt.hasDepth, cam, old(rt.At(x, y, vp)));
      samp' == out.1 &&
      rt.color[..] == old(rt.color[..])[PixelIndex(x, y, vp) := out.0.color] &&
      rt.depth[..] == if rt.hasDepth then old(rt.depth[..])[PixelIndex(x, y, vp) := out.0.depth]
                      else old(rt.depth[..])
  {
    match rays
    case Single(r) =>
      if s.Uniform? {
        if rt.hasDepth {
          SampleUniformDepth(k, r, samp, frameNum, rt, x, y, vp, cam);
        } else {
          SampleUniformColor(k, r, samp, frameNum, rt, x, y, vp, cam);
        }
        samp' := samp;
      } else if s.Jittered? {
        samp' := SampleJitteredColor(k, r, samp, frameNum, rt, x, y, vp, cam);
      } else if rt.hasDepth {
        samp' := SampleJitteredBlendDepth(k, r, samp, frameNum, rt, x, y, vp, cam);
      } else {
        samp' := SampleJitteredBlendColor(k, r, samp, frameNum, rt, x, y, vp, cam);
      }
    case Batch(rs) =>
      if s.JitteredBlend? {
        samp' := SampleJitteredBlendBatch(k, rs, samp, frameNum, rt, x, y, vp, cam);
      } else {
        if rt.hasDepth {
          SampleSsaaDepth(k, rs, samp, frameNum, rt, x, y, vp, cam);
        } else {
          SampleSsaaColor(k, rs, samp, frameNum, rt, x, y, vp, cam);
        }
        samp' := samp;
      }
  }

  //-----------------------------------------------------------------------------
  // What the compositing rules amount to

  /** The j-th kernel call of a batch sees the j-th ray and the sampler as the
      first j calls left it. */
  lemma {:induction false} TraceAllWithAt(k: Kernel, rays: seq<Ray>, samp: Sampler, j: nat)
    requires j < |rays|
    ensures TraceAllWith(k, rays, samp).0[j]
         == k.traceWith(rays[j], TraceAllWith(k, rays[..j], samp).1).0
  {
    var init := rays[..|rays| - 1];
    if j < |rays| - 1 {
      TraceAllWithAt(k, init, samp, j);
      assert init[..j] == rays[..j];
    } else {
      assert init == rays[..j];
    }
  }

  /** Jittered blend on frame 1 leaves the pixel equal to the sample (colour,
      and depth when there is a depth channel), whatever it held before. */
  lemma JitteredBlendFirstFrame(k: Kernel, r: Ray, samp: Sampler, hasDepth: bool,
                                cam: ViewProj, prev: Pixel)
    requires DepthsDefined(k, JitteredBlend, Single(r), samp, hasDepth, cam)
    ensures var res := k.traceWith(r, samp).0;
      var p := Composite(k, JitteredBlend, Single(r), samp, 1, hasDepth, cam, prev).0;
      p.color == res.color && (hasDepth ==> p.depth == SampleDepth(res, cam))
  {
  }

  /** A batch of jittered-blend rays starting at frame 1 leaves the mean of the
      kernel's colours in the pixel. */
  lemma JitteredBlendBatchMean(k: Kernel, rays: seq<Ray>, samp: Sampler, cam: ViewProj, prev: Pixel)
    requires |rays| > 0
    ensures Composite(k, JitteredBlend, Batch(rays), samp, 1, false, cam, prev).0.color
         == Mean(Colors(TraceAllWith(k, rays, samp).0))
  {
    BlendFramesFromFirstFrame(prev.color, Colors(TraceAllWith(k, rays, samp).0));
  }

  /** Single-ray jittered-blend calls, one per frame from `frameNum` on, the
      sampler passed along. */
  function Progressive(k: Kernel, rays: seq<Ray>, samp: Sampler, frameNum: nat,
                       cam: ViewProj, prev: Pixel): (Pixel, Sampler)
    requires frameNum >= 1
  {
    if rays == [] then (prev, samp)
    else
      var (p, s1) := Progressive(k, rays[..|rays| - 1], samp, frameNum, cam, prev);
      Composite(k, JitteredBlend, Single(rays[|rays| - 1]), s1, frameNum + |rays| - 1, false, cam, p)
  }

  /** The batch overload does what the single-ray overload does when called
      once per ray on consecutive frames. */
  lemma {:induction false} BatchIsProgressive(k: Kernel, rays: seq<Ray>, samp: Sampler, frameNum: nat,
                                              cam: ViewProj, prev: Pixel)
    requires frameNum >= 1
    ensures Composite(k, JitteredBlend, Batch(rays), samp, frameNum, false, cam, prev)
         == Progressive(k, rays, samp, frameNum, cam, prev)
  {
    if rays != [] {
      var init := rays[..|rays| - 1];
      BatchIsProgressive(k, init, samp, frameNum, cam, prev);
      var (samples, s1) := TraceAllWith(k, init, samp);
      var (res, s2) := k.traceWith(rays[|rays| - 1], s1);
      assert Colors(samples + [res])[..|samples|] == Colors(samples);
    }
  }

  /** Supersampling leaves the plain average of the N kernel colours (and, with
      a depth channel, of the N sample depths) in the pixel. */
  lemma SsaaIsMean(k: Kernel, n: nat, rays: seq<Ray>, samp: Sampler, frameNum: nat,
                   hasDepth: bool, cam: ViewProj, prev: Pixel)
    requires n == |rays| > 0
    requires DepthsDefined(k, Ssaa(n), Batch(rays), samp, hasDepth, cam)
    ensures var p := Composite(k, Ssaa(n), Batch(rays), samp, frameNum, hasDepth, cam, prev).0;
      p.color == Mean(Colors(TraceAll(k, rays))) &&
      (hasDepth ==> p.depth == Mean(Depths(TraceAll(k, rays), cam)))
  {
    SsaaBlendIsMean(Colors(TraceAll(k, rays)));
    if hasDepth {
      SsaaBlendIsMean(Depths(TraceAll(k, rays), cam));
    }
  }

  /** With a depth channel, supersampling depends neither on the frame counter
      nor on what the pixel held before (the colour-only case follows from
      SsaaIsMean). */
  lemma SsaaIgnoresFrameAndHistory(k: Kernel, n: nat, rays: seq<Ray>, samp: Sampler,
                                   f1: nat, f2: nat, cam: ViewProj, p1: Pixel, p2: Pixel)
    requires n == |rays|
    requires DepthsDefined(k, Ssaa(n), Batch(rays), samp, true, cam)
    ensures Composite(k, Ssaa(n), Batch(rays), samp, f1, true, cam, p1)
         == Composite(k, Ssaa(n), Batch(rays), samp, f2, true, cam, p2)
  {
  }
}
