/** Blending of premultiplied colours, over the reals. */
module Blend {

  datatype Rgba = Rgba(r: real, g: real, b: real, a: real)

  const CLEAR: Rgba := Rgba(0.0, 0.0, 0.0, 0.0)

  /** A product, named so that proofs can speak of it without multiplying out. */
  function Times(x: real, y: real): real {
    x * y
  }

  /** One channel `x` of a colour with alpha `a`, over the channel `y` below. */
  function Mix(x: real, a: real, y: real): real {
    x + Times(1.0 - a, y)
  }

  /** `top` drawn over `bottom`. */
  function Over(top: Rgba, bottom: Rgba): Rgba {
    Rgba(Mix(top.r, top.a, bottom.r), Mix(top.g, top.a, bottom.g), Mix(top.b, top.a, bottom.b), Mix(top.a, top.a, bottom.a))
  }

  /** A stack of colours, given from the top down, drawn over nothing. */
  function Stack(colors: seq<Rgba>): Rgba {
    if colors == [] then CLEAR else Over(colors[0], Stack(colors[1..]))
  }

  /** A premultiplied colour: no channel exceeds the alpha, and that lies between 0 and 1. */
  predicate Valid(c: Rgba) {
    0.0 <= c.r <= c.a && 0.0 <= c.g <= c.a && 0.0 <= c.b <= c.a && c.a <= 1.0
  }

  // ---------------------------------------------------------------- laws of Over

  lemma {:induction false} OverAlpha(t: Rgba, u: Rgba)
    ensures 1.0 - Over(t, u).a == Times(1.0 - t.a, 1.0 - u.a)
  {
  }

  lemma {:induction false} MixAssociative(tx: real, ta: real, ux: real, ua: real, vx: real)
    ensures Mix(Mix(tx, ta, ux), Mix(ta, ta, ua), vx) == Mix(tx, ta, Mix(ux, ua, vx))
  {
    var k := 1.0 - ta;
    assert (k - k * ua) * vx == k * vx - k * (ua * vx);
    assert k * (ux + (1.0 - ua) * vx) == k * ux + k * vx - k * (ua * vx);
  }

  lemma {:induction false} OverAssociative(t: Rgba, u: Rgba, v: Rgba)
    ensures Over(Over(t, u), v) == Over(t, Over(u, v))
  {
    MixAssociative(t.r, t.a, u.r, u.a, v.r);
    MixAssociative(t.g, t.a, u.g, u.a, v.g);
    MixAssociative(t.b, t.a, u.b, u.a, v.b);
    MixAssociative(t.a, t.a, u.a, u.a, v.a);
  }

  lemma {:induction false} StackConcat(a: seq<Rgba>, b: seq<Rgba>)
    ensures Stack(a + b) == Over(Stack(a), Stack(b))
  {
    if a == [] {
      assert a + b == b;
      OverClear(Stack(b));
    } else {
      assert (a + b)[1..] == a[1..] + b;
      StackConcat(a[1..], b);
      OverAssociative(a[0], Stack(a[1..]), Stack(b));
    }
  }

  lemma {:induction false} OverClear(c: Rgba)
    ensures Over(CLEAR, c) == c && Over(c, CLEAR) == c
  {
  }

  lemma {:induction false} OverOpaque(t: Rgba, u: Rgba)
    requires t.a == 1.0
    ensures Over(t, u) == t
  {
  }

  lemma {:induction false} ScaleBounds(k: real, x: real, y: real)
    requires 0.0 <= k <= 1.0 && 0.0 <= x <= y
    ensures 0.0 <= Times(k, x) <= Times(k, y) <= y
  {
  }

  /** Scaling by a factor between 0 and 1. */
  lemma {:induction false} UnitBounds(k: real, x: real)
    requires 0.0 <= k <= 1.0 && 0.0 <= x <= 1.0
    ensures 0.0 <= Times(k, x) <= k && Times(k, x) <= x
  {
    NonNegative(k, x);
    NonNegative(k, 1.0 - x);
    NonNegative(1.0 - k, x);
    assert k * (1.0 - x) == k - k * x;
    assert (1.0 - k) * x == x - k * x;
  }

  lemma {:induction false} NonNegative(x: real, y: real)
    requires 0.0 <= x && 0.0 <= y
    ensures 0.0 <= x * y
  {
  }

  lemma {:induction false} Commute(x: real, y: real)
    ensures Times(x, y) == Times(y, x)
  {
  }

  lemma {:induction false} OverValidChannel(ta: real, tx: real, ua: real, ux: real)
    requires 0.0 <= tx <= ta <= 1.0 && 0.0 <= ux <= ua <= 1.0
    ensures 0.0 <= Mix(tx, ta, ux) <= Mix(ta, ta, ua) <= 1.0
  {
    ScaleBounds(1.0 - ta, ux, ua);
    UnitBounds(1.0 - ta, ua);
  }

  lemma {:induction false} OverValid(t: Rgba, u: Rgba)
    requires Valid(t) && Valid(u)
    ensures Valid(Over(t, u))
  {
    OverValidChannel(t.a, t.r, u.a, u.r);
    OverValidChannel(t.a, t.g, u.a, u.g);
    OverValidChannel(t.a, t.b, u.a, u.b);
  }

  lemma {:induction false} StackValid(colors: seq<Rgba>)
    requires forall i :: 0 <= i < |colors| ==> Valid(colors[i])
    ensures Valid(Stack(colors))
  {
    if colors != [] {
      StackValid(colors[1..]);
      OverValid(colors[0], Stack(colors[1..]));
    }
  }

  /** Nothing shows below an opaque colour. */
  lemma {:induction false} StackBelowOpaque(colors: seq<Rgba>, k: nat)
    requires k < |colors| && colors[k].a == 1.0
    ensures Stack(colors) == Stack(colors[..k + 1])
  {
    if k == 0 {
      assert colors[..1][1..] == [];
      OverOpaque(colors[0], Stack(colors[1..]));
      OverClear(colors[0]);
    } else {
      StackBelowOpaque(colors[1..], k - 1);
      assert colors[..k + 1][1..] == colors[1..][..k];
    }
  }

  /** A stack with an opaque colour is opaque. */
  lemma {:induction false} StackWithOpaque(colors: seq<Rgba>, k: nat)
    requires k < |colors| && colors[k].a == 1.0
    ensures Stack(colors).a == 1.0
  {
    if k > 0 {
      StackWithOpaque(colors[1..], k - 1);
      OverAlpha(colors[0], Stack(colors[1..]));
    } else {
      OverOpaque(colors[0], Stack(colors[1..]));
    }
  }

  /** A stack of translucent colours is translucent. */
  lemma {:induction false} StackTranslucent(colors: seq<Rgba>)
    requires forall i :: 0 <= i < |colors| ==> colors[i].a < 1.0
    ensures Stack(colors).a < 1.0
  {
    if colors != [] {
      StackTranslucent(colors[1..]);
      OverTranslucent(colors[0], Stack(colors[1..]));
    }
  }

  lemma {:induction false} OverTranslucent(t: Rgba, u: Rgba)
    requires t.a < 1.0 && u.a < 1.0
    ensures Over(t, u).a < 1.0
  {
    OverAlpha(t, u);
    PositiveProduct(1.0 - t.a, 1.0 - u.a);
  }

  lemma {:induction false} PositiveProduct(x: real, y: real)
    requires x > 0.0 && y > 0.0
    ensures Times(x, y) > 0.0
  {
  }

  lemma {:induction false} OverVisible(t: Rgba, u: Rgba)
    requires Valid(t) && Valid(u) && (t.a > 0.0 || u.a > 0.0)
    ensures Over(t, u).a > 0.0
  {
    UnitBounds(1.0 - t.a, u.a);
    if t.a == 0.0 {
      assert Times(1.0 - t.a, u.a) == u.a;
    }
  }

  /** A valid stack with a visible colour is visible. */
  lemma {:induction false} StackVisible(colors: seq<Rgba>, k: nat)
    requires forall i :: 0 <= i < |colors| ==> Valid(colors[i])
    requires k < |colors| && colors[k].a > 0.0
    ensures Stack(colors).a > 0.0
  {
    StackValid(colors[1..]);
    if k > 0 {
      StackVisible(colors[1..], k - 1);
    }
    OverVisible(colors[0], Stack(colors[1..]));
  }

  // ---------------------------------------------------------------- the fragment program

  /** One texture of the program: the sampled colour, the plane alpha, and 1 if premultiplied. */
  datatype Sample = Sample(texel: Rgba, alpha: real, premult: real)

  function MaxReal(x: real, y: real): real {
    if x < y then y else x
  }

  /** One channel of a texel, premultiplied if it is not yet, and faded by the plane alpha. */
  function Tint(x: real, a: real, premult: real, alpha: real): real {
    Times(x, Times(MaxReal(a, premult), alpha))
  }

  /** The premultiplied colour that a sample contributes. */
  function Shade(s: Sample): Rgba {
    var t := s.texel;
    Rgba(Tint(t.r, t.a, s.premult, s.alpha), Tint(t.g, t.a, s.premult, s.alpha), Tint(t.b, t.a, s.premult, s.alpha),
         Times(t.a, s.alpha))
  }

  function ShadeAll(samples: seq<Sample>): (r: seq<Rgba>)
    ensures |r| == |samples| && forall i :: 0 <= i < |r| ==> r[i] == Shade(samples[i])
  {
    seq(|samples|, i requires 0 <= i < |samples| => Shade(samples[i]))
  }

  /** Channels between 0 and 1, and no brighter than the alpha where they are premultiplied. */
  predicate ValidSample(s: Sample) {
    && 0.0 <= s.texel.r <= 1.0 && 0.0 <= s.texel.g <= 1.0 && 0.0 <= s.texel.b <= 1.0 && 0.0 <= s.texel.a <= 1.0
    && 0.0 <= s.alpha <= 1.0
    && (s.premult == 0.0 || (s.premult == 1.0 && Valid(s.texel)))
  }

  /** What a premultiplied texel contributes: every channel, faded by the plane alpha. */
  lemma {:induction false} PremultipliedFades(t: Rgba, alpha: real)
    requires t.a <= 1.0
    ensures Shade(Sample(t, alpha, 1.0)) == Rgba(t.r * alpha, t.g * alpha, t.b * alpha, t.a * alpha)
  {
    assert 1.0 * alpha == alpha;
  }

  /** What a texel that is not premultiplied contributes: its colour times its alpha, faded by the plane alpha. */
  lemma {:induction false} StraightFades(t: Rgba, alpha: real)
    requires 0.0 <= t.a
    ensures Shade(Sample(t, alpha, 0.0)) == Rgba(t.r * t.a * alpha, t.g * t.a * alpha, t.b * t.a * alpha, t.a * alpha)
  {
    Reassociate(t.r, t.a, alpha);
    Reassociate(t.g, t.a, alpha);
    Reassociate(t.b, t.a, alpha);
  }

  lemma {:induction false} Reassociate(x: real, y: real, z: real)
    ensures x * (y * z) == x * y * z
  {
  }

  function Premultiplied(t: Rgba): Rgba {
    Rgba(t.r * t.a, t.g * t.a, t.b * t.a, t.a)
  }

  /** A straight texel and its premultiplied form contribute the same. */
  lemma {:induction false} StraightIsPremultiplied(t: Rgba, alpha: real)
    requires 0.0 <= t.a <= 1.0
    ensures Shade(Sample(t, alpha, 0.0)) == Shade(Sample(Premultiplied(t), alpha, 1.0))
  {
    StraightFades(t, alpha);
    PremultipliedFades(Premultiplied(t), alpha);
  }

  lemma {:induction false} ShadeChannel(alpha: real, premult: real, a: real, x: real)
    requires 0.0 <= a <= 1.0 && 0.0 <= x <= 1.0 && 0.0 <= alpha <= 1.0
    requires premult == 0.0 || (premult == 1.0 && x <= a)
    ensures 0.0 <= Tint(x, a, premult, alpha) <= Times(a, alpha) <= 1.0
  {
    UnitBounds(a, alpha);
    if premult == 0.0 {
      assert MaxReal(a, premult) == a;
      UnitBounds(x, Times(a, alpha));
    } else {
      assert MaxReal(a, premult) == 1.0;
      ScaleBounds(alpha, x, a);
      Commute(alpha, x);
      Commute(alpha, a);
      assert Times(1.0, alpha) == alpha;
    }
  }

  lemma {:induction false} ShadeValid(s: Sample)
    requires ValidSample(s)
    ensures Valid(Shade(s))
  {
    ShadeChannel(s.alpha, s.premult, s.texel.a, s.texel.r);
    ShadeChannel(s.alpha, s.premult, s.texel.a, s.texel.g);
    ShadeChannel(s.alpha, s.premult, s.texel.a, s.texel.b);
  }

  const CUTOFF: real := 0.5 / 255.0

  /** The program stopped early by at most half a step of an 8-bit channel. */
  predicate Near(c: Rgba, exact: Rgba) {
    && 0.0 <= exact.r - c.r <= 0.5 / 255.0
    && 0.0 <= exact.g - c.g <= 0.5 / 255.0
    && 0.0 <= exact.b - c.b <= 0.5 / 255.0
    && 0.0 <= exact.a - c.a <= 0.5 / 255.0
  }

  lemma {:induction false} StopNearChannel(a: real, x: real, y: real)
    requires 0.0 <= a <= 1.0 && 1.0 - a <= CUTOFF && 0.0 <= y <= 1.0
    ensures 0.0 <= Mix(x, a, y) - x <= CUTOFF
  {
    UnitBounds(1.0 - a, y);
  }

  lemma {:induction false} StopNear(color: Rgba, rest: Rgba)
    requires Valid(color) && Valid(rest) && 1.0 - color.a <= CUTOFF
    ensures Near(color, Over(color, rest))
  {
    StopNearChannel(color.a, color.r, rest.r);
    StopNearChannel(color.a, color.g, rest.g);
    StopNearChannel(color.a, color.b, rest.b);
    StopNearChannel(color.a, color.a, rest.a);
  }

  /** The colour after the first `i` samples is their stack. */
  ghost predicate Blended(samples: seq<Sample>, i: nat, r: real, g: real, b: real, alphaCover: real)
    requires i <= |samples|
  {
    Rgba(r, g, b, 1.0 - alphaCover) == Stack(ShadeAll(samples[..i]))
  }

  /** What one texture adds to a channel: the premultiplied texel, faded, as far as it shows. */
  function Added(x: real, mult: real, alpha: real, cover: real): real {
    x * mult * alpha * cover
  }

  /** How much still shows below a texture. */
  function CoverBelow(cover: real, a: real, alpha: real): real {
    cover * (1.0 - a * alpha)
  }

  lemma {:induction false} BlendChannel(x: real, a: real, premult: real, alpha: real, cover: real)
    ensures Added(x, MaxReal(a, premult), alpha, cover) == Times(cover, Tint(x, a, premult, alpha))
  {
  }

  lemma {:induction false} CoverStep(cover: real, a: real, alpha: real)
    ensures 1.0 - CoverBelow(cover, a, alpha) == 1.0 - cover + Times(cover, Times(a, alpha))
  {
  }

  lemma {:induction false} BlendStep(samples: seq<Sample>, i: nat, r: real, g: real, b: real, alphaCover: real)
    requires i < |samples| && Blended(samples, i, r, g, b, alphaCover)
    ensures var s := samples[i];
            var mult := MaxReal(s.texel.a, s.premult);
            Blended(samples, i + 1,
                    r + Added(s.texel.r, mult, s.alpha, alphaCover),
                    g + Added(s.texel.g, mult, s.alpha, alphaCover),
                    b + Added(s.texel.b, mult, s.alpha, alphaCover),
                    CoverBelow(alphaCover, s.texel.a, s.alpha))
  {
    var s := samples[i];
    StackAppend(samples, i);
    BlendChannel(s.texel.r, s.texel.a, s.premult, s.alpha, alphaCover);
    BlendChannel(s.texel.g, s.texel.a, s.premult, s.alpha, alphaCover);
    BlendChannel(s.texel.b, s.texel.a, s.premult, s.alpha, alphaCover);
    CoverStep(alphaCover, s.texel.a, s.alpha);
    assert 1.0 - (1.0 - alphaCover) == alphaCover;
  }

  lemma {:induction false} StackAppend(samples: seq<Sample>, i: nat)
    requires i < |samples|
    ensures Stack(ShadeAll(samples[..i + 1])) == Over(Stack(ShadeAll(samples[..i])), Shade(samples[i]))
  {
    var last := [Shade(samples[i])];
    assert ShadeAll(samples[..i + 1]) == ShadeAll(samples[..i]) + last;
    StackConcat(ShadeAll(samples[..i]), last);
    assert last[1..] == [];
    OverClear(Shade(samples[i]));
  }

  lemma {:induction false} StackSplit(samples: seq<Sample>, i: nat)
    requires i <= |samples|
    ensures Stack(ShadeAll(samples)) == Over(Stack(ShadeAll(samples[..i])), Stack(ShadeAll(samples[i..])))
  {
    assert ShadeAll(samples) == ShadeAll(samples[..i]) + ShadeAll(samples[i..]);
    StackConcat(ShadeAll(samples[..i]), ShadeAll(samples[i..]));
  }

  lemma {:induction false} StackOfSamplesValid(samples: seq<Sample>)
    requires forall i :: 0 <= i < |samples| ==> ValidSample(samples[i])
    ensures Valid(Stack(ShadeAll(samples)))
  {
    forall i | 0 <= i < |samples| {
      ShadeValid(samples[i]);
    }
    StackValid(ShadeAll(samples));
  }

  lemma {:induction false} GiveUp(samples: seq<Sample>, i: nat, r: real, g: real, b: real, alphaCover: real)
    requires forall k :: 0 <= k < |samples| ==> ValidSample(samples[k])
    requires i <= |samples| && Blended(samples, i, r, g, b, alphaCover)
    requires alphaCover <= CUTOFF || i == |samples|
    ensures Near(Rgba(r, g, b, 1.0 - alphaCover), Stack(ShadeAll(samples)))
  {
    StackOfSamplesValid(samples[..i]);
    if i == |samples| {
      assert samples[..i] == samples;
    } else {
      StackOfSamplesValid(samples[i..]);
      StackSplit(samples, i);
      StopNear(Stack(ShadeAll(samples[..i])), Stack(ShadeAll(samples[i..])));
    }
  }

  /** What the program makes of its samples: their stack, up to the first where less than half a step shows below. */
  ghost predicate Output(samples: seq<Sample>, color: Rgba, blended: nat) {
    && blended <= |samples| && color == Stack(ShadeAll(samples[..blended]))
    && (samples != [] ==> 0 < blended)
    && (forall k :: 0 < k < blended ==> 1.0 - Stack(ShadeAll(samples[..k])).a > 0.5 / 255.0)
    && (blended < |samples| ==> 1.0 - color.a <= 0.5 / 255.0)
  }

  /** Samples that contribute the same give the same output. */
  lemma {:induction false} OutputDetermined(a: seq<Sample>, b: seq<Sample>, color: Rgba, blended: nat, color': Rgba, blended': nat)
    requires |a| == |b| && forall i :: 0 <= i < |a| ==> Shade(a[i]) == Shade(b[i])
    requires Output(a, color, blended) && Output(b, color', blended')
    ensures color == color' && blended == blended'
  {
    forall k | 0 <= k <= |a|
      ensures ShadeAll(a[..k]) == ShadeAll(b[..k])
    {
    }
  }

  /** A premultiplied texel alone, shown in full, comes out as it is. */
  lemma {:induction false} OneSampleShown(t: Rgba, color: Rgba, blended: nat)
    requires t.a <= 1.0 && Output([Sample(t, 1.0, 1.0)], color, blended)
    ensures color == t
  {
    var samples := [Sample(t, 1.0, 1.0)];
    PremultipliedFades(t, 1.0);
    OverClear(t);
    assert blended == 1 && samples[..1] == samples;
    assert Shade(samples[0]) == t;
    var colors := ShadeAll(samples);
    assert colors == [t] && colors[1..] == [];
    assert Stack(colors[1..]) == CLEAR;
  }

  /**
   The emitted fragment program: it blends from the front to the back and, before every layer
   but the first, gives up once almost nothing below can show. The result is the stack of the
   layers it blended, and within half a step of an 8-bit channel of the whole stack.
   */
  method FragmentProgram(samples: seq<Sample>) returns (fragColor: Rgba, ghost blended: nat)
    requires forall i :: 0 <= i < |samples| ==> ValidSample(samples[i])
    ensures Near(fragColor, Stack(ShadeAll(samples)))
    ensures Output(samples, fragColor, blended)
  {
    var r, g, b := 0.0, 0.0, 0.0;
    var alphaCover := 1.0;
    var i: nat := 0;
    while i < |samples| && (i == 0 || alphaCover > 0.5 / 255.0)
      invariant i <= |samples| && Blended(samples, i, r, g, b, alphaCover)
      invariant forall k :: 0 < k < i ==> 1.0 - Stack(ShadeAll(samples[..k])).a > 0.5 / 255.0
    {
      BlendStep(samples, i, r, g, b, alphaCover);
      var s := samples[i];
      var mult := MaxReal(s.texel.a, s.premult);
      r := r + Added(s.texel.r, mult, s.alpha, alphaCover);
      g := g + Added(s.texel.g, mult, s.alpha, alphaCover);
      b := b + Added(s.texel.b, mult, s.alpha, alphaCover);
      alphaCover := CoverBelow(alphaCover, s.texel.a, s.alpha);
      i := i + 1;
    }
    GiveUp(samples, i, r, g, b, alphaCover);
    fragColor, blended := Rgba(r, g, b, 1.0 - alphaCover), i;
  }
}
