/** The resolved placement of an element on screen (`RawTransform`): position,
    size, padding and vertical scroll offset, all `u16`. */
module Transform {
  import opened Common

  datatype RawTransform = RawTransform(
    x: U16, y: U16, width: U16, height: U16, px: U16, py: U16, offsetY: U16)

  /** `RawTransform::new()`: everything at zero. */
  const Zero := RawTransform(0, 0, 0, 0, 0, 0, 0)
}
