// The render target as the compositor sees it: a colour buffer and, when the
// target has a depth channel, a depth buffer, both addressed by pixel
// coordinate within a viewport. `store` and `blend` are the two operations of
// `pixel_access` that sched_common.h calls.

module RenderTargets {
  import opened PrimaryRays
  import Accumulation

  /** Row-major position of pixel (x, y) in a buffer of the viewport's size. */
  function PixelIndex(x: nat, y: nat, vp: Viewport): (i: nat)
    ensures x < vp.w && y < vp.h ==> i < vp.w * vp.h
  {
    PixelIndexInRange(x, y, vp);
    y * vp.w + x
  }

  /** Every pixel of the viewport has its own place in the buffer. */
  lemma PixelIndexInjective(x1: nat, y1: nat, x2: nat, y2: nat, vp: Viewport)
    requires x1 < vp.w && x2 < vp.w
    ensures PixelIndex(x1, y1, vp) == PixelIndex(x2, y2, vp) <==> x1 == x2 && y1 == y2
  {
    if y1 < y2 {
      MulMonotone(y1 + 1, y2, vp.w);
    } else if y2 < y1 {
      MulMonotone(y2 + 1, y1, vp.w);
    }
  }

  lemma {:induction false} MulMonotone(a: nat, b: nat, c: nat)
    requires a <= b
    ensures a * c <= b * c
  {
    if a < b {
      MulMonotone(a, b - 1, c);
      assert (b - 1) * c + c == b * c;
    }
  }

  lemma PixelIndexInRange(x: nat, y: nat, vp: Viewport)
    ensures x < vp.w && y < vp.h ==> y * vp.w + x < vp.w * vp.h
  {
    if x < vp.w && y < vp.h {
      MulMonotone(y + 1, vp.h, vp.w);
      assert (y + 1) * vp.w == y * vp.w + vp.w;
    }
  }

  /** The colour and depth held at one pixel. */
  datatype Pixel = Pixel(color: real, depth: real)

  /** `render_target_ref<CF>` (colour only) or `render_target_ref<CF, DF>`
      (colour and depth). A colour-only target never touches `depth`. */
  class RenderTarget {
    const color: array<real>
    const depth: array<real>
    const hasDepth: bool

    ghost predicate Valid(vp: Viewport)
    {
      color != depth &&
      color.Length == vp.w * vp.h &&
      (hasDepth ==> depth.Length == vp.w * vp.h)
    }

    constructor (vp: Viewport, withDepth: bool)
      ensures Valid(vp) && hasDepth == withDepth
      ensures fresh(color) && fresh(depth)
    {
      color := new real[vp.w * vp.h];
      depth := new real[if withDepth then vp.w * vp.h else 0];
      hasDepth := withDepth;
    }

    /** The pixel's current contents; depth reads as 0 without a depth channel. */
    ghost function At(x: nat, y: nat, vp: Viewport): Pixel
      requires Valid(vp) && x < vp.w && y < vp.h
      reads color, depth
    {
      var i := PixelIndex(x, y, vp);
      Pixel(color[i], if hasDepth then depth[i] else 0.0)
    }

    /** `pixel_access::store` into the colour buffer. */
    method Store(x: nat, y: nat, vp: Viewport, c: real)
      requires Valid(vp) && x < vp.w && y < vp.h
      modifies color
      ensures color[..] == old(color[..])[PixelIndex(x, y, vp) := c]
    {
      var i := PixelIndex(x, y, vp);
      color[i] := c;
    }

    /** `pixel_access::store` into both buffers. */
    method StoreWithDepth(x: nat, y: nat, vp: Viewport, c: real, d: real)
      requires Valid(vp) && hasDepth && x < vp.w && y < vp.h
      modifies color, depth
      ensures color[..] == old(color[..])[PixelIndex(x, y, vp) := c]
      ensures depth[..] == old(depth[..])[PixelIndex(x, y, vp) := d]
    {
      var i := PixelIndex(x, y, vp);
      color[i] := c;
      depth[i] := d;
    }

    /** `pixel_access::blend` into the colour buffer:
        stored := weightNew * c + weightOld * stored. */
    method Blend(x: nat, y: nat, vp: Viewport, c: real, weightNew: real, weightOld: real)
      requires Valid(vp) && x < vp.w && y < vp.h
      modifies color
      ensures color[..] == old(color[..])[PixelIndex(x, y, vp) :=
        Accumulation.Blend(c, weightNew, weightOld, old(color[PixelIndex(x, y, vp)]))]
    {
      var i := PixelIndex(x, y, vp);
      color[i] := Accumulation.Blend(c, weightNew, weightOld, color[i]);
    }

    /** `pixel_access::blend` into both buffers, with the same weights. */
    method BlendWithDepth(x: nat, y: nat, vp: Viewport, c: real, d: real,
                          weightNew: real, weightOld: real)
      requires Valid(vp) && hasDepth && x < vp.w && y < vp.h
      modifies color, depth
      ensures color[..] == old(color[..])[PixelIndex(x, y, vp) :=
        Accumulation.Blend(c, weightNew, weightOld, old(color[PixelIndex(x, y, vp)]))]
      ensures depth[..] == old(depth[..])[PixelIndex(x, y, vp) :=
        Accumulation.Blend(d, weightNew, weightOld, old(depth[PixelIndex(x, y, vp)]))]
    {
      var i := PixelIndex(x, y, vp);
      color[i] := Accumulation.Blend(c, weightNew, weightOld, color[i]);
      depth[i] := Accumulation.Blend(d, weightNew, weightOld, depth[i]);
    }
  }
}
