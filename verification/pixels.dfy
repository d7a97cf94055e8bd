/** The two conversions from the projector's plane coordinates to detector
    pixel positions.  The detector pitch is 0.194 (millimetres per pixel).

    - tomosynthesis-reconstruction mode: (u + size/2) / 0.194
    - CT mode:                           u / (spacing · 0.194) + size/2 */
module Pixels {
  import opened Results

  const PixelPitch: real := 0.194

  /** The detector size in pixels: `size[0]` columns and `size[1]` rows. */
  datatype ImageSize = ImageSize(x: nat, y: nat)

  /** A real-valued position on the detector, `[px, py]`. */
  datatype Pixel = Pixel(x: real, y: real)

  /** Half of a size, `size[i]/2` under true division. */
  function Half(n: nat): real {
    n as real / 2.0
  }

  /** Tomosynthesis-reconstruction conversion of one plane coordinate.  The
      pixel position, scaled back by the pitch, is the coordinate shifted by
      half the image. */
  function TomoReconPixel(u: real, n: nat): (px: real)
    ensures px * PixelPitch == u + Half(n)
  {
    (u + Half(n)) / PixelPitch
  }

  /** The plane coordinate a tomosynthesis-reconstruction pixel position
      comes from. */
  function TomoReconCoordinate(px: real, n: nat): real {
    px * PixelPitch - Half(n)
  }

  lemma TomoReconRoundTrip(u: real, px: real, n: nat)
    ensures TomoReconCoordinate(TomoReconPixel(u, n), n) == u
    ensures TomoReconPixel(TomoReconCoordinate(px, n), n) == px
  {
  }

  /** Larger coordinates land on larger pixel positions. */
  lemma TomoReconIncreasing(u1: real, u2: real, n: nat)
    requires u1 < u2
    ensures TomoReconPixel(u1, n) < TomoReconPixel(u2, n)
  {
  }

  /** CT conversion of one plane coordinate; fails when the spacing is zero
      (the source then divides by zero).  Otherwise the offset from the image
      centre, scaled back by spacing and pitch, is the coordinate. */
  function CtPixel(u: real, n: nat, spacing: real): (r: Result<real>)
    ensures r.Failure? <==> spacing == 0.0
    ensures r.Failure? ==> r.error == ZeroSpacing
    ensures r.Success? ==> (r.value - Half(n)) * (spacing * PixelPitch) == u
  {
    if spacing == 0.0 then Failure(ZeroSpacing)
    else Success(u / (spacing * PixelPitch) + Half(n))
  }

  /** The plane coordinate a CT pixel position comes from. */
  function CtCoordinate(px: real, n: nat, spacing: real): real {
    (px - Half(n)) * (spacing * PixelPitch)
  }

  lemma CtRoundTrip(u: real, px: real, n: nat, spacing: real)
    requires spacing != 0.0
    ensures CtCoordinate(CtPixel(u, n, spacing).value, n, spacing) == u
    ensures CtPixel(CtCoordinate(px, n, spacing), n, spacing) == Success(px)
  {
    var k := spacing * PixelPitch;
    assert k != 0.0;
    var c := CtCoordinate(px, n, spacing);
    assert c == (px - Half(n)) * k;
    assert c / k == px - Half(n);
    assert CtPixel(c, n, spacing) == Success(c / k + Half(n));
  }

  /** For positive spacing the CT conversion is strictly increasing. */
  lemma CtIncreasing(u1: real, u2: real, n: nat, spacing: real)
    requires spacing > 0.0
    requires u1 < u2
    ensures CtPixel(u1, n, spacing).value < CtPixel(u2, n, spacing).value
  {
    var k := spacing * PixelPitch;
    assert k > 0.0;
    assert u1 / k < u2 / k;
  }
}
