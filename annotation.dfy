/**
 * The pdf.js annotation record as the viewer reads and writes it
 * (`PdfJs.Annotation` in dist/index.d.ts), limited to the fields the
 * highlight path touches.
 */
module Annotations {
  import opened Wrappers
  import opened Types

  datatype BorderStyle = BorderStyle(
    dashArray: seq<int>,
    horizontalCornerRadius: int,
    style: int,
    verticalCornerRadius: int,
    width: int)

  datatype Annotation = Annotation(
    annotationFlags: int,
    annotationType: int,
    color: Option<seq<int>>,
    hasAppearance: bool,
    id: string,
    rect: Rect,
    subtype: string,
    borderStyle: BorderStyle,
    hasPopup: Option<bool>,
    contents: Option<string>,
    modificationDate: Option<string>,
    creationDate: Option<string>,
    quadPoints: Option<seq<Quad>>,
    title: Option<string>)
}
