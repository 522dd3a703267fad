# Pixel sampling in visionaray's scheduler core

This project models the per-pixel work that every visionaray scheduler shares,
found in `include/visionaray/detail/sched_common.h`. It covers:

- **Primary rays.** A pixel maps to normalised device coordinates by
  `u = 2 (x + 0.5) / w - 1` (and likewise for v). Each pixel-sampler tag adds
  its own sub-pixel offsets:
  - `uniform_type`: none;
  - `jittered_type` and `jittered_blend_type`: two draws from the sampler;
  - `ssaa_type<2/4/8>`: fixed tables.

  `make_primary_rays` repeats the single-ray generator, and the sampler is
  passed from one call to the next.
- **Depth.** `depth_transform` projects a hit position with the view and
  projection matrices, divides by w and remaps z from [-1, 1] to [0, 1]. A miss
  is given the far-plane depth 1.
- **The pixel compositor.** These are the eight `sample_pixel_impl` overloads:
  - uniform, colour only and with depth;
  - jittered, colour only;
  - jittered blend, colour only and with depth;
  - jittered blend over a batch of rays, colour only;
  - supersampling, colour only and with depth.

  Each calls the kernel and stores the result in the render target, or blends
  it in with weights `1/frame_num` or `1/Num`.
- **The entry point.** `sample_pixel` passes its arguments on. With
  `have_intersector_tag`, the kernel is first wrapped in
  `call_kernel_with_intersector`.

The modules are:

- `Geometry` (geometry.dfy): vectors, matrices and `depth_transform`.
- `PrimaryRays` (primary_rays.dfy): the NDC map, the offset tables, the
  sampler stream, `make_primary_ray` and `make_primary_rays`.
- `Accumulation` (accumulation.dfy): the blend rule and what repeated blending
  amounts to, namely a running mean over frames and a plain mean within one
  supersampling call.
- `RenderTargets` (render_target.dfy): a class that holds the colour and depth
  buffers, with the `store` and `blend` operations of `pixel_access`.
- `Compositor` (compositor.dfy): the overloads as methods over the render
  target, all specified by one function `Composite`.
- `Dispatch` (dispatch.dfy): the intersector wrapper and `sample_pixel`.

Modelling conventions:

- A colour is one real number. `blend` acts on each colour component the same
  way, so one component shows all of its behaviour.
- A ray is kept abstract. It records its camera and the (u, v) it was built
  from.
- The sampler is an endless stream of draws with a cursor, and `next()` reads
  the draw at the cursor. The kernel's sampler form returns the sampler it
  leaves behind.
- The two `samp.next()` calls in the jitter vector are constructor arguments,
  and C++ leaves the order of their evaluation unspecified. The model takes
  that order as a parameter (`EvalOrder`) and proves what holds for both
  orders.
- Template overload selection becomes data. A `PixelSampler` tag, a
  `RayArg` (one ray or an array) and the render target's `hasDepth` choose the
  branch. `Supported` lists exactly the combinations for which an overload
  exists.

## Model

| member | source | states |
|---|---|---|
| `Geometry.DepthRemap` | include/visionaray/detail/sched_common.h:259 | The remap `(z + 1) * 0.5` sends z in [-1, 1], and only those z, into [0, 1]. It sends -1 to 0 and 1 to 1, and `2d - 1` recovers z. |
| `Geometry.DepthRemapMonotone` | include/visionaray/detail/sched_common.h:259 | The remap is strictly increasing, so nearer points get smaller depth. |
| `Geometry.DepthTransform` | include/visionaray/detail/sched_common.h:244-260 | Projecting, dividing by w and remapping gives a depth in [0, 1] exactly when the point's normalised-device z is in [-1, 1]. |
| `Geometry.DepthTransformIgnoresInverses` | include/visionaray/detail/sched_common.h:244-260 | The depth is the same whatever inverse matrices are passed: only the view and projection matrices are used. |
| `PrimaryRays.Ndc` | include/visionaray/detail/sched_common.h:58-59 | The map `2 (p + 0.5) / extent - 1` is invertible: the pixel coordinate is `(u + 1) extent / 2 - 0.5`. |
| `PrimaryRays.MakePrimaryRayImpl` | include/visionaray/detail/sched_common.h:46-92 | Both camera forms: the ray records the camera, and its (u, v) give back the pixel coordinates (x, y) it was built from. |
| `PrimaryRays.NdcBounds` | include/visionaray/detail/sched_common.h:58-59 | A pixel inside the image, displaced by at most half a pixel, maps into [-1, 1]. The pixel centre maps strictly inside. |
| `PrimaryRays.OffsetRaysInNdc` | include/visionaray/detail/sched_common.h:82-83 | Rays built at in-range offsets of an in-image pixel have u and v in [-1, 1]. The ray at offset (0, 0) lies strictly inside. |
| `PrimaryRays.Ssaa2Offsets` | include/visionaray/detail/sched_common.h:148-151 | The 2x pattern has two samples, each within half a pixel of the centre. |
| `PrimaryRays.Ssaa4Offsets` | include/visionaray/detail/sched_common.h:170-175 | The 4x pattern has four samples, each within half a pixel of the centre. |
| `PrimaryRays.Ssaa8Offsets` | include/visionaray/detail/sched_common.h:194-203 | The 8x table exactly as written has eight samples within half a pixel of the centre. |
| `PrimaryRays.Ssaa8OffsetsAsWritten` | include/visionaray/detail/sched_common.h:195-202 | As written, the 8x x offsets sum to 0 but the y offsets sum to -0.005. The pattern is neither centred nor point-symmetric: the mirror of the third sample, (0.375, 0.1875), is not in it. |
| `PrimaryRays.Ssaa8OffsetsCorrected` | include/visionaray/detail/sched_common.h:194-203 | The corrected 8x table matches the original in seven samples. Its sixth sample mirrors the third and differs from the original's sixth. |
| `PrimaryRays.Ssaa2Centred` | include/visionaray/detail/sched_common.h:148-151 | The 2x samples mirror each other through the pixel centre, and their offsets sum to zero. |
| `PrimaryRays.Ssaa4Centred` | include/visionaray/detail/sched_common.h:170-175 | The 4x pattern is point-symmetric, and its x and y offsets both sum to zero. |
| `PrimaryRays.Ssaa4Symmetric` | include/visionaray/detail/sched_common.h:171-174 | Each 4x sample, mirrored through the pixel centre, is the sample two places after it (cyclically). |
| `PrimaryRays.Ssaa8Centred` | include/visionaray/detail/sched_common.h:194-203 | The corrected 8x pattern is point-symmetric, and its x and y offsets both sum to zero. |
| `PrimaryRays.Ssaa8CorrectedSymmetric` | include/visionaray/detail/sched_common.h:194-203 | Sample k of the corrected 8x pattern mirrors sample 7 - k. |
| `PrimaryRays.Ssaa8CorrectedSumDx` | include/visionaray/detail/sched_common.h:195-202 | The x offsets of the corrected 8x pattern sum to zero. |
| `PrimaryRays.Ssaa8CorrectedSumDy` | include/visionaray/detail/sched_common.h:195-202 | The y offsets of the corrected 8x pattern sum to zero. |
| `PrimaryRays.Jitter` | include/visionaray/detail/sched_common.h:122 | The jitter takes exactly the next two draws and advances the sampler by two. Its components plus 0.5 are those two draws, in either order. With draws in [0, 1), each component is in [-0.5, 0.5). |
| `PrimaryRays.Offsets` | include/visionaray/detail/sched_common.h:94-204 | Each tag yields as many offsets as it has rays: 1, or Num for `ssaa_type<Num>`. Only the jittered tags consume draws, two per call. All offsets stay within half a pixel when the sampler keeps its [0, 1) contract. The uniform offset is (0, 0), and the supersampling offsets are the source's tables exactly as written, 0.1825 included. For the jittered tags the one offset is the jitter vector `(next() - 0.5, next() - 0.5)` of `PrimaryRays.Jitter`. |
| `PrimaryRays.FixedPatternsCentred` | include/visionaray/detail/sched_common.h:94-204 | Of the patterns that do not consume draws, one is point-symmetric and centred exactly when it is not the 8x table. The uniform sample and the 2x and 4x tables are; the 8x table as written is not (see `PrimaryRays.Ssaa8OffsetsAsWritten`; the corrected table is, see `PrimaryRays.Ssaa8Centred`). |
| `PrimaryRays.FixedOffsetsIgnoreSampler` | include/visionaray/detail/sched_common.h:144 | The uniform and supersampling offsets do not depend on the sampler's state or the evaluation order. |
| `PrimaryRays.MakePrimaryRay` | include/visionaray/detail/sched_common.h:94-204 | `make_primary_ray` returns one ray per offset, all with the given camera, and advances the sampler by the draws it took. For an in-image pixel, every ray lies in [-1, 1]^2 in normalised device coordinates. The uniform ray lies strictly inside. |
| `PrimaryRays.RaysAt` | include/visionaray/detail/sched_common.h:149-202 | One ray per offset, in order. For an in-image pixel and in-range offsets every ray is in [-1, 1]^2, and the zero offset gives a ray strictly inside. |
| `PrimaryRays.SsaaRaysAtTable` | include/visionaray/detail/sched_common.h:194-203 | `ssaa_type<n>` yields n rays, and ray k is built at offset k of the source's literal table, so the sixth 8x ray is at y + 0.1825. |
| `PrimaryRays.MakePrimaryRayAtOffset` | include/visionaray/detail/sched_common.h:124-128 | Ray k is the NDC map of the pixel coordinate plus offset k. |
| `PrimaryRays.MakePrimaryRays` | include/visionaray/detail/sched_common.h:215-237 | `make_primary_rays` returns Num rays. Ray i is what a single call gives with the sampler advanced by i calls' draws, and the sampler ends Num calls on. |
| `Accumulation.FrameBlend` | include/visionaray/detail/sched_common.h:394-400 | On frame 1 the stored value becomes the sample, whatever it held. On later frames it moves towards the sample by 1/frame of the difference. |
| `Accumulation.BlendFrames` | include/visionaray/detail/sched_common.h:478-488 | The fold of the batch loop, one `FrameBlend` per frame. A stored value and samples in [0, 1] leave a result in [0, 1], because every step is a convex combination. |
| `Accumulation.BlendFramesRunningMean` | include/visionaray/detail/sched_common.h:475-488 | After blending samples on frames frame0, frame0+1, and so on, the stored value times the frame count equals (frame0 - 1) times the old value plus the sum of the samples. |
| `Accumulation.BlendFramesFromFirstFrame` | include/visionaray/detail/sched_common.h:478-488 | Accumulating from frame 1 leaves exactly the arithmetic mean of the samples. |
| `Accumulation.BlendFramesConstant` | include/visionaray/detail/sched_common.h:394-400 | Feeding one value on every frame from frame 1 converges to that value at once. |
| `Accumulation.BlendFramesExample` | include/visionaray/detail/sched_common.h:394-400 | Samples 1, 0, 1 on frames 1, 2, 3 leave 2/3. |
| `Accumulation.SsaaBlend` | include/visionaray/detail/sched_common.h:534-539 | The fold of the supersampling loop: blending samples with weights 1/Num and 1 adds the samples' sum divided by Num to the stored value. |
| `Accumulation.SsaaBlendIsMean` | include/visionaray/detail/sched_common.h:531-539 | Cleared to zero and blended with Num samples, the stored value is their mean. |
| `Accumulation.SsaaWeightsSumToOne` | include/visionaray/detail/sched_common.h:537 | The Num weights 1/Num sum to one. |
| `Accumulation.SsaaExample` | include/visionaray/detail/sched_common.h:531-539 | Two samples 0 and 1 average to exactly 0.5. |
| `RenderTargets.PixelIndexInjective` | include/visionaray/detail/sched_common.h:294 | Distinct pixels of the viewport are stored at distinct buffer positions, assuming a row-major layout. |
| `RenderTargets.RenderTarget.Store` | include/visionaray/detail/sched_common.h:294 | `store` into the colour buffer replaces pixel (x, y) and leaves every other entry as it was. |
| `RenderTargets.RenderTarget.StoreWithDepth` | include/visionaray/detail/sched_common.h:325 | `store` into both buffers replaces pixel (x, y) in each and changes nothing else. |
| `RenderTargets.RenderTarget.Blend` | include/visionaray/detail/sched_common.h:400 | `blend` sets pixel (x, y) to a times the value plus b times the old content, and changes nothing else. |
| `RenderTargets.RenderTarget.BlendWithDepth` | include/visionaray/detail/sched_common.h:437 | `blend` applies the same weights to colour and depth at pixel (x, y), and changes nothing else. |
| `Compositor.SampleDepth` | include/visionaray/detail/sched_common.h:324 | A miss gets depth 1 (the far plane). On a hit, `2d - 1` is the normalised-device z, and d is in [0, 1] exactly when that z is in [-1, 1]. |
| `Compositor.Composite` | include/visionaray/detail/sched_common.h:267-587 | No overload touches the depth of a colour-only target. Uniform and supersampling calls leave the sampler as it was. |
| `Compositor.SampleUniformColor` | include/visionaray/detail/sched_common.h:276-295 | The kernel's colour for the ray replaces pixel (x, y), and nothing else changes. |
| `Compositor.SampleUniformDepth` | include/visionaray/detail/sched_common.h:307-326 | Colour and the hit-guarded depth of the kernel result replace pixel (x, y). |
| `Compositor.SampleJitteredColor` | include/visionaray/detail/sched_common.h:342-360 | The kernel is called with the sampler. Its colour replaces the pixel, and the sampler is the one the kernel returns. |
| `Compositor.SampleJitteredBlendColor` | include/visionaray/detail/sched_common.h:376-401 | The pixel becomes `FrameBlend(old, sample, frame_num)`: the sample on frame 1, a running-mean step later. |
| `Compositor.SampleJitteredBlendDepth` | include/visionaray/detail/sched_common.h:413-438 | Colour and depth each follow `FrameBlend`. On frame 1, storing the result first and then blending with alpha = 1 gives the result itself. |
| `Compositor.SampleJitteredBlendBatch` | include/visionaray/detail/sched_common.h:455-489 | Frames frame_num to frame_num + Num - 1 each blend one kernel result, in array order, with the sampler passed along. The pixel ends at `BlendFrames` of those colours. |
| `Compositor.SampleSsaaColor` | include/visionaray/detail/sched_common.h:506-540 | The pixel is cleared, then each of the Num kernel colours is added with weight 1/Num. |
| `Compositor.SampleSsaaDepth` | include/visionaray/detail/sched_common.h:553-587 | The same as the colour-only case for colour and for hit-guarded depth. The frame counter plays no part. |
| `Compositor.SamplePixelImpl` | include/visionaray/detail/sched_common.h:267-587 | Overload selection over tag, ray argument and channels. Pixel (x, y) and the sampler end as `Composite` says, every other pixel is unchanged, and a colour-only target's depth buffer is untouched. |
| `Compositor.TraceAllWithAt` | include/visionaray/detail/sched_common.h:485 | The j-th kernel call of a batch sees ray j and the sampler as the first j calls left it. |
| `Compositor.JitteredBlendFirstFrame` | include/visionaray/detail/sched_common.h:433-437 | On frame 1 the pixel ends equal to the sample in colour and (with a depth channel) in depth, whatever it held. |
| `Compositor.JitteredBlendBatchMean` | include/visionaray/detail/sched_common.h:475-488 | A batch starting at frame 1 leaves the mean of the kernel colours. |
| `Compositor.BatchIsProgressive` | include/visionaray/detail/sched_common.h:478-488 | The batch overload equals single-ray jittered-blend calls on consecutive frames with the sampler passed along. |
| `Compositor.SsaaIsMean` | include/visionaray/detail/sched_common.h:580-586 | Supersampling leaves the plain mean of the Num colours, and with a depth channel the mean of the Num depths. |
| `Compositor.SsaaIgnoresFrameAndHistory` | include/visionaray/detail/sched_common.h:574-586 | With a depth channel, the supersampling result depends neither on frame_num nor on the pixel's previous content. The colour-only case follows from `Compositor.SsaaIsMean`. |
| `Dispatch.CallKernelWithIntersector` | include/visionaray/detail/sched_common.h:605-621 | Both call forms of the wrapper call the wrapped kernel with the intersector in front of the same arguments. |
| `Dispatch.IntersectorReachesKernel` | include/visionaray/detail/sched_common.h:632-636 | Through the wrapper, every kernel call the compositor makes, in either form, reaches the user's kernel with the intersector first. |
| `Dispatch.SamplePixelChooseIntersector` | include/visionaray/detail/sched_common.h:593-637 | Without the tag the kernel goes to `sample_pixel_impl` unchanged; with it, wrapped. The pixel ends as `Composite` says for the kernel that arrives. |
| `Dispatch.SamplePixel` | include/visionaray/detail/sched_common.h:646-651 | `sample_pixel` has the same effect as the intersector choice it forwards to. |

## Left out

- `Dispatch.IntersectorReachesKernel`: the source passes the intersector by
  non-const reference (`I& isect`), so a kernel that takes `I&` could change
  it, and the change would reach the later kernel calls of the same
  supersampling or batch loop and the caller. The model treats the
  intersector as a value that no call changes, so every call sees the
  caller's intersector.
- `tic()` reads a clock. It is I/O and not part of this model.
- Ray construction past (u, v) is left out: the origin and direction from the
  camera basis, the unprojection through the inverse matrices, and
  `normalize`. A ray records only its camera and (u, v).
- Floating-point rounding and infinities are not modelled. All arithmetic is
  over the reals.
- `frame_num = 0` on the jittered-blend paths is excluded: the model requires
  `frame_num >= 1`. In the source, the single-ray paths then blend with
  weight `1/0` and store NaN. The batch path with `Num >= 2` instead clears
  the pixel again at frame 1 and ends at the mean of all samples but the
  first; the first kernel call still advances the sampler. That outcome is
  not covered by the model.
- The 32-bit width of `unsigned` pixel coordinates and frame counters is not
  modelled. They are unbounded naturals.
- SIMD ray packets (several pixels per call) are not modelled. The model
  handles one pixel per call.
- The internals of `pixel_access` and `render_target_ref` are not part of this
  model. Their effect is modelled as a row-major write or blend of one entry.
  `blend(value, a, b)` is read as `a * value + b * stored`.
- `Result{}` is taken to be zero in colour and depth.
- The pixel-sampler tag definitions are not part of this model.
  `jittered_blend_type` is taken to generate rays the way `jittered_type` does.
- `Compositor.Composite`: its own ensures states only what every overload
  shares: depth untouched without a depth channel, and the sampler untouched
  by uniform and supersampling. Each overload's full effect is stated by its
  method's ensures and by the lemmas beside it.
- `PrimaryRays.MakePrimaryRays`: it is modelled for the single-ray tags only.
  With a supersampling tag the source would put arrays of rays into an array
  of single rays.
- Template overload resolution is replaced by matching on `PixelSampler`,
  `RayArg` and `hasDepth`. A combination with no overload is excluded by
  `Supported` rather than being a compile error.
- That `depth_transform` followed by the inverse matrices gives back the hit
  position is not modelled. The inverse matrices are unused by
  `depth_transform`.
- That the basis camera and the matrix camera give the same rays is not
  modelled. It would need the vector maths that is left out above.
- `src/common/manip/zoom_manipulator.cpp` is not part of this model.

## Findings

| source | as written | input that shows it | evidently intended | confidence | as-written member | corrected member |
|---|---|---|---|---|---|---|
| include/visionaray/detail/sched_common.h:200 | The sixth 8x SSAA sample is at y offset +0.1825. | Any pixel rendered with `ssaa_type<8>`. The y offsets sum to -0.005, so the samples are not centred on the pixel. The mirror (0.375, 0.1875) of the third sample (-0.375, -0.1875) is missing, whereas every other sample's mirror is present. | +0.1875, which makes the pattern point-symmetric and centred. The ray generator keeps the table as written. | medium, not executed | `PrimaryRays.Ssaa8OffsetsAsWritten` | `PrimaryRays.Ssaa8OffsetsCorrected` |

Accumulating samples 1, 0, 1 on frames 1, 2, 3 of the jittered-blend path
yields 2/3, the arithmetic mean. The weights `1/frame` and `1 - 1/frame` are
exactly the running-mean update (`Accumulation.BlendFramesExample`,
`Accumulation.BlendFramesFromFirstFrame`).
