/** The colour constants and `darken_color` of wungeons2/src/colors.rs. */
module Colors {
  /** Rust's `u8`. */
  newtype u8 = x: int | 0 <= x < 256

  /** An RGBA colour. */
  type Rgba = (u8, u8, u8, u8)

  const BG_COLOR: Rgba := (78, 54, 42, 255)
  const REVEALED_BG_COLOR: Rgba := (61, 43, 31, 255)
  const WHITE: Rgba := (255, 255, 255, 255)
  const BLACK: Rgba := (0, 0, 0, 255)
  const GOLD: Rgba := (218, 145, 1, 255)
  const SILVER: Rgba := (191, 191, 191, 255)
  const REVEALED_FOG_COLOR: Rgba := (75, 75, 75, 255)
  const FOG_BG_COLOR: Rgba := (65, 65, 65, 255)
  const WALL_COLOR: Rgba := (50, 50, 50, 255)
  const WALL_BG_COLOR: Rgba := (40, 40, 40, 255)

  /** `darken_color` as written: red is halved, but green and blue are both
      taken from the halved alpha. */
  function DarkenColorAsWritten(color: Rgba): (r: Rgba)
    ensures r.3 == color.3
    ensures r.0 <= color.0 && 2 * (r.0 as int) <= color.0 as int < 2 * (r.0 as int) + 2
    ensures r.1 == r.2 && 2 * (r.1 as int) <= color.3 as int < 2 * (r.1 as int) + 2
  {
    (color.0 / 2, color.3 / 2, color.3 / 2, color.3)
  }

  /** Halving each colour channel and keeping alpha, which is what the name and
      the red channel show was meant. */
  function DarkenColor(color: Rgba): (r: Rgba)
    ensures r.3 == color.3
    ensures r.0 <= color.0 && 2 * (r.0 as int) <= color.0 as int < 2 * (r.0 as int) + 2
    ensures r.1 <= color.1 && 2 * (r.1 as int) <= color.1 as int < 2 * (r.1 as int) + 2
    ensures r.2 <= color.2 && 2 * (r.2 as int) <= color.2 as int < 2 * (r.2 as int) + 2
  {
    (color.0 / 2, color.1 / 2, color.2 / 2, color.3)
  }

  /** Darkening opaque black as written gives a teal, not black. */
  lemma DarkenBlackAsWritten()
    ensures DarkenColorAsWritten(BLACK) == (0, 127, 127, 255)
    ensures DarkenColor(BLACK) == BLACK
  {
  }

  /** The two agree exactly when green and blue halve to what alpha halves to. */
  lemma DarkenAgreement(color: Rgba)
    ensures DarkenColorAsWritten(color) == DarkenColor(color) <==>
      color.1 / 2 == color.3 / 2 && color.2 / 2 == color.3 / 2
  {
  }

  /** Darkening never brightens a channel, so repeating it converges. */
  lemma {:induction false} DarkenRepeated(color: Rgba, n: nat)
    ensures var r := DarkenIter(color, n);
      r.3 == color.3 && r.0 <= color.0 && r.1 <= color.1 && r.2 <= color.2
  {
    if n > 0 {
      DarkenRepeated(color, n - 1);
    }
  }

  /** `darken_color` applied n times. */
  function DarkenIter(color: Rgba, n: nat): Rgba {
    if n == 0 then color else DarkenColor(DarkenIter(color, n - 1))
  }
}
