/** The shapes shared by the selection and annotation layers (src/types.d.ts). */
module Types {
  import opened Wrappers

  /** A screen- or container-local rectangle: left, top, width, height, in pixels. */
  datatype LTWH = LTWH(left: real, top: real, width: real, height: real)

  /** A page-space rectangle `[X0, Y0, X1, Y1]`; the origin is the page's bottom-left corner. */
  datatype Rect = Rect(x0: real, y0: real, x1: real, y1: real)

  /** A pdf.js `AnnotationPoint`. */
  datatype Point = Point(x: real, y: real)

  /** One highlight quad: the four corners at indices 0..3 of a pdf.js quad-point group. */
  datatype Quad = Quad(p0: Point, p1: Point, p2: Point, p3: Point)

  /** What a selection captured: selected text, or a PNG data URL of the selected area. */
  datatype Contents = Contents(text: Option<string>, image: Option<string>)

  /**
   * The `resetSelection` callbacks handed from a selection layer to its host,
   * identified by the layer they reset.
   */
  datatype ResetHandle = MouseSelectionReset | TextSelectionReset
}
