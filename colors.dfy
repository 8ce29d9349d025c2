/** The four-channel colour value shared by the declarative and the compositor layers. */
module Colors {

  /** One colour channel, an unsigned 8-bit value. */
  newtype Byte = x: int | 0 <= x < 256

  datatype Color = Color(a: Byte, r: Byte, g: Byte, b: Byte)

  /** The fallback base colour when an element has no solid base paint: opaque #A9A9A9. */
  const DarkGray: Color := Color(255, 169, 169, 169)

  /** The same red, green and blue channels with alpha 0. */
  function Transparent(c: Color): (t: Color)
    ensures t.a == 0
    ensures SameRgb(t, c)
  {
    Color(0, c.r, c.g, c.b)
  }

  predicate SameRgb(x: Color, y: Color) {
    x.r == y.r && x.g == y.g && x.b == y.b
  }
}
