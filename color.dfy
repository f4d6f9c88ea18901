/** Colours and the conversion of an accumulated pixel colour into three
    8-bit channel values (src/color.rs). */
module Colors {
  import opened Numeric
  import opened Common
  import opened Vectors

  /** A colour is a vector of red, green and blue intensities. */
  type Color = Vec3

  /** `Color::default()`. */
  const BLACK: Color := Vec3(0.0, 0.0, 0.0)
  const WHITE: Color := Vec3(1.0, 1.0, 1.0)

  /** `(256.0 * clamp(0.0, g, 0.999)) as i32`: the clamped value is never
      negative, so the cast truncates it down to its floor. */
  function Quantize(g: real): (r: int)
    ensures 0 <= r <= 255
    ensures r as real <= 256.0 * Clamp(0.0, g, 0.999) < r as real + 1.0
    ensures g <= 0.0 ==> r == 0
    ensures g >= 0.999 ==> r == 255
  {
    (256.0 * Clamp(0.0, g, 0.999)).Floor
  }

  /** A larger gamma-corrected value never gives a smaller channel. */
  lemma QuantizeMonotone(g1: real, g2: real)
    requires g1 <= g2
    ensures Quantize(g1) <= Quantize(g2)
  {
    ClampMonotone(0.0, g1, g2, 0.999);
  }

  /** One channel: the component times 1 / samples, its square root, then
      quantised. The source divides by an `i32` sample count without a
      guard, and the IEEE results are followed here: with zero samples the
      scale is +infinity, so a positive component saturates and any other
      gives NaN; a negative scaled value gives NaN from the square root.
      The clamp passes NaN through and the cast turns it into 0. */
  function Channel(component: real, samplesPerPixel: int, sqrt: real -> real): (r: int)
    requires IsSqrt(sqrt)
    ensures 0 <= r <= 255
    ensures samplesPerPixel > 0 && component >= 0.0 ==>
      r == Quantize(sqrt(component / samplesPerPixel as real))
    ensures samplesPerPixel >= 0 && component <= 0.0 ==> r == 0
  {
    if samplesPerPixel == 0 then
      if component > 0.0 then 255 else 0
    else
      var scaled := component * (1.0 / samplesPerPixel as real);
      assert scaled == component / samplesPerPixel as real;
      if scaled < 0.0 then 0
      else
        SqrtUnique(sqrt, 0.0, 0.0);
        Quantize(sqrt(scaled))
  }

  /** `write_color`: the three channels are computed independently of one
      another and written in red, green, blue order. */
  function WriteColor(pixelColor: Color, samplesPerPixel: int, sqrt: real -> real): (r: (int, int, int))
    requires IsSqrt(sqrt)
    ensures 0 <= r.0 <= 255 && 0 <= r.1 <= 255 && 0 <= r.2 <= 255
    ensures r.0 == Channel(pixelColor.x, samplesPerPixel, sqrt)
    ensures r.1 == Channel(pixelColor.y, samplesPerPixel, sqrt)
    ensures r.2 == Channel(pixelColor.z, samplesPerPixel, sqrt)
  {
    (Channel(pixelColor.x, samplesPerPixel, sqrt),
     Channel(pixelColor.y, samplesPerPixel, sqrt),
     Channel(pixelColor.z, samplesPerPixel, sqrt))
  }

  /** With a positive sample count a brighter component never gives a
      smaller channel value. */
  lemma ChannelMonotone(c1: real, c2: real, samplesPerPixel: int, sqrt: real -> real)
    requires IsSqrt(sqrt)
    requires samplesPerPixel > 0
    requires 0.0 <= c1 <= c2
    ensures Channel(c1, samplesPerPixel, sqrt) <= Channel(c2, samplesPerPixel, sqrt)
  {
    var n := samplesPerPixel as real;
    assert c1 / n <= c2 / n;
    SqrtMonotone(sqrt, c1 / n, c2 / n);
    QuantizeMonotone(sqrt(c1 / n), sqrt(c2 / n));
  }

  /** A component whose average over the samples is at least 1 saturates. */
  lemma ChannelSaturates(c: real, samplesPerPixel: int, sqrt: real -> real)
    requires IsSqrt(sqrt)
    requires samplesPerPixel > 0
    requires c >= samplesPerPixel as real
    ensures Channel(c, samplesPerPixel, sqrt) == 255
  {
    var n := samplesPerPixel as real;
    assert c / n >= 1.0;
    SqrtUnique(sqrt, 1.0, 1.0);
    SqrtMonotone(sqrt, 1.0, c / n);
  }

  /** Black is written as 0 0 0 for every sample count that is not
      negative. */
  lemma BlackPixel(samplesPerPixel: int, sqrt: real -> real)
    requires IsSqrt(sqrt)
    requires samplesPerPixel >= 0
    ensures WriteColor(BLACK, samplesPerPixel, sqrt) == (0, 0, 0)
  {
  }
}
