/** The colour value the palette is made of. The crate that defines it is not
    part of this model: a colour is an opaque record of four 8-bit channels,
    and the crate's constructors are passed in as a `ColorCrate` value so that
    every property below holds whatever those constructors compute. */
module ColorData {
  import opened Outcomes

  newtype byte = x: int | 0 <= x < 0x100

  datatype Color = Color(r: byte, g: byte, b: byte, a: byte)

  /** The four entry points of the colour crate the core calls.
      - `default`:  `Color::default()`
      - `fromHex`:  `Color::from_hex`, given the whole token including `#`
      - `fromHex8`: `Color::from_hex8`, likewise
      - `fromText`: `Color::from(&str)`; `None` where the crate would panic
      The two hex decoders are total: they are assumed never to panic on the
      tokens the scanner passes them. */
  datatype ColorCrate = ColorCrate(
    default: Color,
    fromHex: string -> Color,
    fromHex8: string -> Color,
    fromText: string -> Option<Color>)

  /** The derived ordering of a four-channel record: channel by channel in
      declaration order. */
  predicate Less(x: Color, y: Color) {
    || x.r < y.r
    || (x.r == y.r && x.g < y.g)
    || (x.r == y.r && x.g == y.g && x.b < y.b)
    || (x.r == y.r && x.g == y.g && x.b == y.b && x.a < y.a)
  }
}
