/**
 * Colours (src/scene.rs): the Color record, its two multiplications and
 * `clamp`, and the conversion of a colour to an 8-bit RGB pixel.
 */
module Colors {

  datatype Color = Color(r: real, g: real, b: real)

  const Black: Color := Color(0.0, 0.0, 0.0)

  /** `&Color * f64`: every channel scaled by the same factor. */
  function ScaleColor(c: Color, k: real): (s: Color)
    ensures s.r * c.g == s.g * c.r && s.g * c.b == s.b * c.g && s.r * c.b == s.b * c.r
    ensures (c.r == 0.0 ==> s.r == 0.0) && (c.g == 0.0 ==> s.g == 0.0) && (c.b == 0.0 ==> s.b == 0.0)
    ensures c == Black ==> s == Black
    ensures k == 0.0 ==> s == Black
    ensures k == 1.0 ==> s == c
  {
    Color(c.r * k, c.g * k, c.b * k)
  }

  /** Scaling by one factor and then another is scaling once by their product. */
  lemma ScaleColorComposes(c: Color, k1: real, k2: real)
    ensures ScaleColor(ScaleColor(c, k1), k2) == ScaleColor(c, k1 * k2)
  {
  }

  /** `&Color * &Color`: the componentwise product. */
  function MulColor(a: Color, b: Color): (p: Color)
    ensures a == Black || b == Black ==> p == Black
    ensures b == Color(1.0, 1.0, 1.0) ==> p == a
  {
    Color(a.r * b.r, a.g * b.g, a.b * b.b)
  }

  /** One channel of `clamp`: `v.min(1.0).max(0.0)`. */
  function ClampChannel(v: real): (c: real)
    ensures 0.0 <= c <= 1.0
    ensures 0.0 <= v <= 1.0 ==> c == v
    ensures v < 0.0 ==> c == 0.0
    ensures v > 1.0 ==> c == 1.0
  {
    var m := if v <= 1.0 then v else 1.0;
    if m >= 0.0 then m else 0.0
  }

  ghost predicate InUnit(c: Color) {
    0.0 <= c.r <= 1.0 && 0.0 <= c.g <= 1.0 && 0.0 <= c.b <= 1.0
  }

  /** `Color::clamp`: every channel forced into [0, 1]. */
  function Clamp(c: Color): (k: Color)
    ensures InUnit(k)
    ensures InUnit(c) ==> k == c
  {
    Color(ClampChannel(c.r), ClampChannel(c.g), ClampChannel(c.b))
  }

  lemma ClampIdempotent(c: Color)
    ensures Clamp(Clamp(c)) == Clamp(c)
  {
  }

  lemma MulColorCommutative(a: Color, b: Color)
    ensures MulColor(a, b) == MulColor(b, a)
  {
  }

  lemma MulColorAssociative(a: Color, b: Color, c: Color)
    ensures MulColor(MulColor(a, b), c) == MulColor(a, MulColor(b, c))
  {
  }

  /**
   * The plane shader computes ((colour x light) * power) * reflected and the
   * sphere shader ((colour * power) * reflected) x light: the same colour.
   */
  lemma ShadingOrdersAgree(c: Color, light: Color, power: real, reflected: real)
    ensures ScaleColor(ScaleColor(MulColor(c, light), power), reflected)
         == MulColor(ScaleColor(ScaleColor(c, power), reflected), light)
  {
  }

  /** An 8-bit channel value (image::Rgb<u8>). */
  newtype u8 = x: int | 0 <= x < 256

  /**
   * Rust's `f64 as u8`: truncation toward zero, saturating at 0 and 255.
   */
  function AsU8(v: real): (b: u8)
    ensures v <= 0.0 ==> b == 0
    ensures v >= 255.0 ==> b == 255
    ensures 0.0 <= v < 256.0 ==> b as real <= v < b as real + 1.0
  {
    if v <= 0.0 then 0 else if v >= 255.0 then 255 else v.Floor as u8
  }

  datatype Rgb = Rgb(r: u8, g: u8, b: u8)

  /** `image::Rgb([(255.0 * c.r) as u8, (255.0 * c.g) as u8, (255.0 * c.b) as u8])`. */
  function ToRgb(c: Color): Rgb {
    Rgb(AsU8(255.0 * c.r), AsU8(255.0 * c.g), AsU8(255.0 * c.b))
  }

  /** For a colour already in [0, 1] the cast is floor(255 * c), per channel. */
  lemma ToRgbInUnit(c: Color)
    requires InUnit(c)
    ensures ToRgb(c).r as int == (255.0 * c.r).Floor
    ensures ToRgb(c).g as int == (255.0 * c.g).Floor
    ensures ToRgb(c).b as int == (255.0 * c.b).Floor
  {
  }
}
