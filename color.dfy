/** RGBA colours (src/core/color.rs). */
module Colors {
  import opened Ints

  datatype Color = Color(r: Byte, g: Byte, b: Byte, a: Byte)

  const BLACK: Color := Color(0, 0, 0, 255)
  const WHITE: Color := Color(255, 255, 255, 255)
  const RED: Color := Color(255, 0, 0, 255)
  const GREEN: Color := Color(0, 255, 0, 255)
  const BLUE: Color := Color(0, 0, 255, 255)
  const YELLOW: Color := Color(255, 255, 0, 255)
  const CYAN: Color := Color(0, 255, 255, 255)
  const MAGENTA: Color := Color(255, 0, 255, 255)
  const TRANSPARENT: Color := Color(0, 0, 0, 0)
}
