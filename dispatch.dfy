// The public entry point `sample_pixel` of sched_common.h and the optional
// intersector injection: with `have_intersector_tag`, the kernel is wrapped in
// `call_kernel_with_intersector`, which calls it with the intersector put in
// front of its other arguments; without the tag the arguments are passed on
// unchanged.

module Dispatch {
  import opened Geometry
  import opened PrimaryRays
  import opened RenderTargets
  import opened Compositor

  /** A kernel that takes an intersector of type I as its first argument. */
  datatype IsectKernel<!I> = IsectKernel(
    trace: (I, Ray) -> Sample,
    traceWith: (I, Ray, Sampler) -> (Sample, Sampler))

  /** `call_kernel_with_intersector`: a kernel whose every call form forwards
      to the wrapped kernel with `isect` prepended. */
  function CallKernelWithIntersector<I>(k: IsectKernel<I>, isect: I): (r: Kernel)
    ensures forall ray :: r.trace(ray) == k.trace(isect, ray)
    ensures forall ray, samp :: r.traceWith(ray, samp) == k.traceWith(isect, ray, samp)
  {
    Kernel(ray => k.trace(isect, ray), (ray, samp) => k.traceWith(isect, ray, samp))
  }

  /** The leading arguments of `sample_pixel`: a kernel alone, or
      `have_intersector_tag`, an intersector and a kernel that takes it. */
  datatype KernelArg<!I> = Direct(kernel: Kernel) | HaveIntersector(isect: I, ikernel: IsectKernel<I>)

  /** The kernel that reaches `sample_pixel_impl`. */
  function EffectiveKernel<I>(a: KernelArg<I>): Kernel
  {
    match a
    case Direct(k) => k
    case HaveIntersector(isect, ik) => CallKernelWithIntersector(ik, isect)
  }

  /** With an intersector, every kernel call the compositor makes reaches the
      user's kernel with that intersector first. */
  lemma IntersectorReachesKernel<I>(isect: I, ik: IsectKernel<I>, rays: seq<Ray>, samp: Sampler)
    ensures TraceAll(EffectiveKernel(HaveIntersector(isect, ik)), rays)
         == seq(|rays|, i requires 0 <= i < |rays| => ik.trace(isect, rays[i]))
    ensures forall j :: 0 <= j < |rays| ==>
      TraceAllWith(EffectiveKernel(HaveIntersector(isect, ik)), rays, samp).0[j]
        == ik.traceWith(isect, rays[j],
             TraceAllWith(EffectiveKernel(HaveIntersector(isect, ik)), rays[..j], samp).1).0
  {
    var k := EffectiveKernel(HaveIntersector(isect, ik));
    forall j | 0 <= j < |rays|
      ensures TraceAllWith(k, rays, samp).0[j]
        == ik.traceWith(isect, rays[j], TraceAllWith(k, rays[..j], samp).1).0
    {
      TraceAllWithAt(k, rays, samp, j);
    }
  }

  /** `sample_pixel_choose_intersector_impl`, both overloads. */
  method SamplePixelChooseIntersector<I>(a: KernelArg<I>, s: PixelSampler, rays: RayArg,
                                         samp: Sampler, frameNum: nat, rt: RenderTarget,
                                         x: nat, y: nat, vp: Viewport, cam: ViewProj)
    returns (samp': Sampler)
    requires rt.Valid(vp) && x < vp.w && y < vp.h
    requires Supported(s, rt.hasDepth, rays) && FrameOk(s, frameNum)
    requires DepthsDefined(EffectiveKernel(a), s, rays, samp, rt.hasDepth, cam)
    modifies rt.color, rt.depth
    ensures var out := Composite(EffectiveKernel(a), s, rays, samp, frameNum, rt.hasDepth, cam,
                                 old(rt.At(x, y, vp)));
      samp' == out.1 &&
      rt.color[..] == old(rt.color[..])[PixelIndex(x, y, vp) := out.0.color] &&
      rt.depth[..] == if rt.hasDepth then old(rt.depth[..])[PixelIndex(x, y, vp) := out.0.depth]
                      else old(rt.depth[..])
  {
    match a
    case Direct(k) =>
      samp' := SamplePixelImpl(k, s, rays, samp, frameNum, rt, x, y, vp, cam);
    case HaveIntersector(isect, ik) =>
      var caller := CallKernelWithIntersector(ik, isect);
      samp' := SamplePixelImpl(caller, s, rays, samp, frameNum, rt, x, y, vp, cam);
  }

  /** `sample_pixel`: forwards everything to the intersector choice. */
  method SamplePixel<I>(a: KernelArg<I>, s: PixelSampler, rays: RayArg, samp: Sampler,
                        frameNum: nat, rt: RenderTarget, x: nat, y: nat, vp: Viewport,
                        cam: ViewProj)
    returns (samp': Sampler)
    requires rt.Valid(vp) && x < vp.w && y < vp.h
    requires Supported(s, rt.hasDepth, rays) && FrameOk(s, frameNum)
    requires DepthsDefined(EffectiveKernel(a), s, rays, samp, rt.hasDepth, cam)
    modifies rt.color, rt.depth
    ensures var out := Composite(EffectiveKernel(a), s, rays, samp, frameNum, rt.hasDepth, cam,
                                 old(rt.At(x, y, vp)));
      samp' == out.1 &&
      rt.color[..] == old(rt.color[..])[PixelIndex(x, y, vp) := out.0.color] &&
      rt.depth[..] == if rt.hasDepth then old(rt.depth[..])[PixelIndex(x, y, vp) := out.0.depth]
                      else old(rt.depth[..])
  {
    samp' := SamplePixelChooseIntersector(a, s, rays, samp, frameNum, rt, x, y, vp, cam);
  }
}
