/**
  Flat-shading colour scaling, `update_color_intensity` of src/light.c.
  The `float` intensity is a `real`; the C conversion of the non-negative
  product `channel * intensity` back to `uint32_t` truncates, which for
  non-negative values is `Floor`.
*/
module Light {
  import opened Color

  /** The intensity after the two clamping `if`s: always within [0, 1]. */
  function ClampIntensity(intensity: real): (i: real)
    ensures 0.0 <= i <= 1.0
    ensures 0.0 <= intensity <= 1.0 ==> i == intensity
  {
    if intensity < 0.0 then 0.0 else if intensity > 1.0 then 1.0 else intensity
  }

  /** One channel times a clamped intensity, truncated: never above the channel. */
  function ScaleChannel(ch: Channel, i: real): (r: Channel)
    requires 0.0 <= i <= 1.0
    ensures r <= ch
    ensures i == 1.0 ==> r == ch
    ensures i == 0.0 ==> r == 0
  {
    ScaleBounds(ch as real, i);
    FloorBounds(ch as real * i, ch);
    (ch as real * i).Floor
  }

  lemma FloorBounds(x: real, n: int)
    requires 0.0 <= x <= n as real
    ensures 0 <= x.Floor <= n
  {
  }

  /** Scaling one channel is monotone in the intensity. */
  lemma ScaleMonotone(ch: Channel, i1: real, i2: real)
    requires 0.0 <= i1 <= i2 <= 1.0
    ensures ScaleChannel(ch, i1) <= ScaleChannel(ch, i2)
  {
    MulMonotone(ch as real, i1, i2);
    FloorMonotone(ch as real * i1, ch as real * i2);
  }

  lemma FloorMonotone(x: real, y: real)
    requires x <= y
    ensures x.Floor <= y.Floor
  {
  }

  lemma MulMonotone(x: real, a: real, b: real)
    requires 0.0 <= x && a <= b
    ensures x * a <= x * b
  {
    assert x * (b - a) >= 0.0;
  }

  lemma ScaleBounds(x: real, i: real)
    requires 0.0 <= x && 0.0 <= i <= 1.0
    ensures 0.0 <= x * i <= x
  {
    assert x * (1.0 - i) >= 0.0;
  }

  /**
    `update_color_intensity`: every channel, alpha included, is the truncated
    product of the input channel and the clamped intensity.
  */
  function UpdateColorIntensity(c: Color, intensity: real): (r: Color)
    ensures forall k | 0 <= k < 4 ::
      ChannelOf(r, k) == ScaleChannel(ChannelOf(c, k), ClampIntensity(intensity))
    ensures intensity >= 1.0 ==> r == c
    ensures intensity <= 0.0 ==> r == 0
  {
    var i := ClampIntensity(intensity);
    var r := Pack(ScaleChannel(ChannelOf(c, 3), i), ScaleChannel(ChannelOf(c, 2), i),
                  ScaleChannel(ChannelOf(c, 1), i), ScaleChannel(ChannelOf(c, 0), i));
    PackChannels(c);
    r
  }

  /** No channel of the result exceeds the same channel of the input. */
  lemma IntensityNeverBrightens(c: Color, intensity: real, k: int)
    requires 0 <= k < 4
    ensures ChannelOf(UpdateColorIntensity(c, intensity), k) <= ChannelOf(c, k)
  {
  }

  /** Each channel is non-decreasing in the intensity. */
  lemma IntensityMonotone(c: Color, i1: real, i2: real, k: int)
    requires i1 <= i2 && 0 <= k < 4
    ensures ChannelOf(UpdateColorIntensity(c, i1), k) <= ChannelOf(UpdateColorIntensity(c, i2), k)
  {
    ScaleMonotone(ChannelOf(c, k), ClampIntensity(i1), ClampIntensity(i2));
  }
}
