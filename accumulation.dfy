// The accumulation rules of the pixel compositor in sched_common.h, stated on
// single pixel values. A colour is one real: `blend` acts on every colour
// component alike, so one component shows all of its behaviour.
//
// `pixel_access::blend(value, a, b)` sets the stored value `dst` to
// `a * value + b * dst`, the new sample taking the first weight and the old
// content the second.

module Accumulation {

  /** The effect of `pixel_access::blend` on one stored value. */
  function Blend(value: real, weightNew: real, weightOld: real, dst: real): real
  {
    weightNew * value + weightOld * dst
  }

  function Sum(s: seq<real>): real
  {
    if s == [] then 0.0 else Sum(s[..|s| - 1]) + s[|s| - 1]
  }

  function Mean(s: seq<real>): real
    requires |s| > 0
  {
    Sum(s) / |s| as real
  }

  lemma {:induction false} SumConstant(s: seq<real>, c: real)
    requires forall i :: 0 <= i < |s| ==> s[i] == c
    ensures Sum(s) == |s| as real * c
  {
    if s != [] {
      SumConstant(s[..|s| - 1], c);
    }
  }

  /** The mean of equal samples is their common value. */
  lemma MeanConstant(s: seq<real>, c: real)
    requires |s| > 0 && forall i :: 0 <= i < |s| ==> s[i] == c
    ensures Mean(s) == c
  {
    SumConstant(s, c);
  }

  //-----------------------------------------------------------------------------
  // Jittered blend: progressive accumulation over frames

  /** One jittered-blend step at frame `frame` (counted from 1): the stored
      value is cleared when `frame <= 1`, then the sample is blended in with
      weights `1/frame` and `1 - 1/frame`. On the first frame the result is the
      sample, whatever was stored; later it moves the stored value towards the
      sample by `1/frame` of the difference, the update of a running mean. */
  function FrameBlend(prev: real, sample: real, frame: nat): (r: real)
    requires frame >= 1
    ensures frame == 1 ==> r == sample
    ensures frame >= 2 ==> r == prev + (sample - prev) / frame as real
  {
    var alpha := 1.0 / frame as real;
    Blend(sample, alpha, 1.0 - alpha, if frame <= 1 then 0.0 else prev)
  }

  /** The frame-by-frame accumulation of `samples` into `c0`, the first at
      frame `frame0`, each later one a frame later. */
  function BlendFrames(c0: real, samples: seq<real>, frame0: nat): (r: real)
    requires frame0 >= 1
    ensures InUnit(c0) && (forall i :: 0 <= i < |samples| ==> InUnit(samples[i])) ==> InUnit(r)
  {
    if samples == [] then c0
    else
      var prev := BlendFrames(c0, samples[..|samples| - 1], frame0);
      var n := frame0 + |samples| - 1;
      ConvexStep(prev, samples[|samples| - 1], n as real);
      FrameBlend(prev, samples[|samples| - 1], n)
  }

  /** A value in [0, 1], such as a normalised colour component. */
  predicate InUnit(v: real)
  {
    0.0 <= v <= 1.0
  }

  /** A step of `1/n` of the way from one value to another, with n >= 1,
      stays between the two. */
  lemma ConvexStep(a: real, x: real, n: real)
    requires n >= 1.0
    ensures InUnit(a) && InUnit(x) ==> InUnit(a + (x - a) / n)
  {
    var t := (x - a) / n;
    assert t * n == x - a;
    if x >= a {
      assert 0.0 <= t <= x - a;
    } else {
      assert x - a <= t <= 0.0;
    }
  }

  /** After blending `samples` from frame `frame0` on, the stored value is the
      mean of the `frame0 - 1` frames' worth already held in `c0` and the new
      samples: stored * frames == (frame0 - 1) * c0 + Sum(samples). */
  lemma {:induction false} BlendFramesRunningMean(c0: real, samples: seq<real>, frame0: nat)
    requires frame0 >= 1
    ensures BlendFrames(c0, samples, frame0) * (frame0 - 1 + |samples|) as real
         == (frame0 - 1) as real * c0 + Sum(samples)
  {
    if samples != [] {
      var init := samples[..|samples| - 1];
      var last := samples[|samples| - 1];
      var n := frame0 + |samples| - 1;
      var a := BlendFrames(c0, init, frame0);
      BlendFramesRunningMean(c0, init, frame0);
      assert BlendFrames(c0, samples, frame0) == FrameBlend(a, last, n);
      assert Sum(samples) == Sum(init) + last;
      if n == 1 {
        assert frame0 == 1 && init == [];
      } else {
        assert (frame0 - 1 + |init|) as real == n as real - 1.0;
        assert (frame0 - 1 + |samples|) as real == n as real;
        assert BlendFrames(c0, samples, frame0) == a + (last - a) / n as real;
        MeanUpdate(a, last, n as real, (frame0 - 1) as real * c0 + Sum(init));
      }
    }
  }

  /** Moving `a` towards `x` by `1/n` of the difference turns a mean of
      `n - 1` values into a mean of `n`. */
  lemma MeanUpdate(a: real, x: real, n: real, prior: real)
    requires n >= 2.0 && a * (n - 1.0) == prior
    ensures (a + (x - a) / n) * n == prior + x
  {
    assert (x - a) / n * n == x - a;
  }

  /** Starting from frame 1, the accumulated value is the plain mean of the
      samples, whatever was stored before. */
  lemma BlendFramesFromFirstFrame(c0: real, samples: seq<real>)
    requires |samples| > 0
    ensures BlendFrames(c0, samples, 1) == Mean(samples)
  {
    BlendFramesRunningMean(c0, samples, 1);
    var m := BlendFrames(c0, samples, 1);
    assert m * |samples| as real == Sum(samples);
  }

  /** Feeding the same value from frame 1 on yields exactly that value. */
  lemma BlendFramesConstant(c0: real, samples: seq<real>, c: real)
    requires |samples| > 0 && forall i :: 0 <= i < |samples| ==> samples[i] == c
    ensures BlendFrames(c0, samples, 1) == c
  {
    BlendFramesFromFirstFrame(c0, samples);
    MeanConstant(samples, c);
  }

  /** Frames 1, 2, 3 with samples 1, 0, 1 end at 2/3: the frame weights
      `1/n` reproduce the arithmetic mean. */
  lemma BlendFramesExample(c0: real)
    ensures BlendFrames(c0, [1.0, 0.0, 1.0], 1) == 2.0 / 3.0
  {
    BlendFramesFromFirstFrame(c0, [1.0, 0.0, 1.0]);
    assert [1.0, 0.0, 1.0][..2] == [1.0, 0.0];
    assert [1.0, 0.0][..1] == [1.0];
    assert [1.0][..0] == [];
  }

  //-----------------------------------------------------------------------------
  // Supersampling: equal weights within one call

  /** Blend each of `samples` into `c0` with weights `1/n` and 1 (with no
      samples nothing is divided, so `n` may then be zero).
      Each blend adds `1/n` of its sample and keeps the rest, so the stored
      value grows by the samples' sum over n. */
  function SsaaBlend(c0: real, samples: seq<real>, n: nat): (r: real)
    requires samples == [] || n > 0
    ensures n > 0 ==> r == c0 + Sum(samples) / n as real
  {
    if samples == [] then c0
    else
      var init := samples[..|samples| - 1];
      var last := samples[|samples| - 1];
      assert Sum(samples) == Sum(init) + last;
      assert (Sum(init) + last) / n as real == Sum(init) / n as real + 1.0 / n as real * last;
      Blend(last, 1.0 / n as real, 1.0, SsaaBlend(c0, init, n))
  }

  /** Cleared to zero and blended with `n` samples at weight `1/n`, the
      stored value is their plain average. */
  lemma SsaaBlendIsMean(samples: seq<real>)
    requires |samples| > 0
    ensures SsaaBlend(0.0, samples, |samples|) == Mean(samples)
  {
  }

  /** The `n` new-sample weights `1/n` add up to one: `n` equal samples
      average to their value. */
  lemma SsaaWeightsSumToOne(n: nat)
    requires n > 0
    ensures Sum(seq(n, _ => 1.0 / n as real)) == 1.0
  {
    var w := seq(n, _ => 1.0 / n as real);
    SumConstant(w, 1.0 / n as real);
  }

  /** Two samples 0 and 1 average to exactly 0.5. */
  lemma SsaaExample()
    ensures SsaaBlend(0.0, [0.0, 1.0], 2) == 0.5
  {
    assert [0.0, 1.0][..1] == [0.0];
    assert [0.0][..0] == [];
  }
}
