/** Values shared by the LED subsystem: the strip chip kinds the pixel
  * stores distinguish and one logical RGBW pixel. */
module LedTypes {
  import opened CTypes

  /** The chip kinds `LEDBuffer` and `LEDStripRmt` branch on. */
  datatype LedChip = Ws2812 | Sk6812 | Ws2814 | Flipdot

  /** SK6812 and WS2814 strips carry a white channel. */
  predicate HasWhite(chip: LedChip) {
    chip == Sk6812 || chip == Ws2814
  }

  /** One logical pixel: red, green, blue and white channels. */
  datatype Rgbw = Rgbw(r: u8, g: u8, b: u8, w: u8)

  /** The all-off pixel. */
  const Black: Rgbw := Rgbw(0, 0, 0, 0)

  /** `(r | g | b | w) != 0`: some channel is lit. */
  predicate Lit(p: Rgbw) {
    p.r != 0 || p.g != 0 || p.b != 0 || p.w != 0
  }

  /** A flip-dot's single on/off level in a byte. */
  function DotLevel(p: Rgbw): (v: u8)
    ensures v == 255 || v == 0
    ensures v == 255 <==> Lit(p)
  {
    if Lit(p) then 255 else 0
  }
}
