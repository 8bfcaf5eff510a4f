/** RGB colours as the drawing library receives them: three integer components. */
module Colors {

  datatype Rgb = Rgb(r: int, g: int, b: int) {
    /** Every component is a byte value, 0 to 255. */
    predicate InGamut() {
      0 <= r <= 255 && 0 <= g <= 255 && 0 <= b <= 255
    }
  }

  // Named CSS colours of the drawing library.
  const White := Rgb(255, 255, 255)
  const Black := Rgb(0, 0, 0)
  const Lime := Rgb(0, 255, 0)
  const Red := Rgb(255, 0, 0)
}
