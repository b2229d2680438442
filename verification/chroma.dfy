/** The lighting-effect vocabulary: LED ids, colours and the extended
    matrix effects with their one-byte effect codes. */
module Chroma {
  import opened Bytes

  /** `LedId`; only the logo LED is used. */
  datatype LedId = Logo

  function LedIdByte(l: LedId): byte {
    match l
    case Logo => 0x04
  }

  datatype Color = Color(r: byte, g: byte, b: byte)

  /** `EffectBreathing` */
  datatype BreathingEffect = Single(color: Color) | Dual(first: Color, second: Color) | Random

  /** `ExtendedMatrixEffect`; its first variant, `None` in the source, is
      called `Off` here. */
  datatype ExtendedMatrixEffect =
    | Off
    | Static(color: Color)
    | Breathing(breathing: BreathingEffect)
    | Spectrum
    | Reactive(color: Color, speed: byte)

  /** `u8::from(ExtendedMatrixEffect)`: the effect code, chosen by the variant
      alone. Code 0x04 (wave) is never produced. */
  function EffectCode(e: ExtendedMatrixEffect): (r: byte)
    ensures r <= 0x05 && r != 0x04
  {
    match e
    case Off => 0x00
    case Static(_) => 0x01
    case Breathing(_) => 0x02
    case Spectrum => 0x03
    case Reactive(_, _) => 0x05
  }

  /** Two effects are of the same variant (payloads ignored). */
  predicate SameVariant(a: ExtendedMatrixEffect, b: ExtendedMatrixEffect) {
    || (a.Off? && b.Off?)
    || (a.Static? && b.Static?)
    || (a.Breathing? && b.Breathing?)
    || (a.Spectrum? && b.Spectrum?)
    || (a.Reactive? && b.Reactive?)
  }

  /** The code identifies the variant: equal codes iff equal variants. So the
      code does not depend on colours or speed, all three breathing
      sub-effects share one code, and distinct variants never collide. */
  lemma EffectCodeIdentifiesVariant(a: ExtendedMatrixEffect, b: ExtendedMatrixEffect)
    ensures EffectCode(a) == EffectCode(b) <==> SameVariant(a, b)
  {
  }

  /** `Color::from((u8, u8, u8))` as written: every channel takes the first
      tuple component. */
  function ColorFromTuple(t: (byte, byte, byte)): (c: Color)
    ensures c.r == t.0 && c.g == c.r && c.b == c.r
  {
    Color(t.0, t.0, t.0)
  }

  /** The conversion as written loses the green and blue components. */
  lemma ColorFromTupleLosesChannels()
    ensures ColorFromTuple((0x0C, 0xFF, 0x1D)) != Color(0x0C, 0xFF, 0x1D)
  {
  }

  function ColorToTuple(c: Color): (byte, byte, byte) {
    (c.r, c.g, c.b)
  }

  /** The evidently intended conversion: component i becomes channel i. */
  function ColorFromTupleIntended(t: (byte, byte, byte)): (c: Color)
    ensures ColorToTuple(c) == t
  {
    Color(t.0, t.1, t.2)
  }

  /** The intended conversion and `ColorToTuple` are mutual inverses. */
  lemma ColorTupleRoundTrip(c: Color)
    ensures ColorFromTupleIntended(ColorToTuple(c)) == c
  {
  }
}
