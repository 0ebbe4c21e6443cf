/** Colours as the UI toolkit builds them. */
module Colors {

  /** A colour made by `Color.hsv(hue, saturation, value)`: the hue in
      degrees, saturation and value in percent. Two colours are equal when
      their three components are. */
  datatype Color = Hsv(hue: int, saturation: int, value: int)

  /** Entry `i` of the twelve-colour palette: hue `i * 30` degrees,
      saturation and value 0.9. */
  function PaletteColor(i: int): Color
  {
    Hsv(i * 30, 90, 90)
  }
}
