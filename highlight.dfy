/**
 * Rendering a highlight annotation (src/annotations/Highlight.tsx): one clone
 * of the annotation per quad, each with the rect rebuilt from its quad, and
 * the two flags handed to the annotation component.
 */
module Highlight {
  import opened Wrappers
  import opened Types
  import opened Transforms
  import opened Annotations
  import opened AnnotationUtils
  import opened TextLayer

  /** The rect a clone gets from its quad: `[q[0].x, q[3].y, q[3].x, q[0].y]`. */
  function RectOfQuad(q: Quad): Rect
  {
    Rect(q.p0.x, q.p3.y, q.p3.x, q.p0.y)
  }

  /** Rebuilding the rect from the quad of a page rect gives back the page rect. */
  lemma RectOfQuadOf(p: Rect)
    ensures RectOfQuad(QuadOf(p)) == p
  {
  }

  /** The clones for a list of quads, in quad order. */
  function CloneEach(annotation: Annotation, quads: seq<Quad>): (cs: seq<Annotation>)
    ensures |cs| == |quads|
    ensures forall i :: 0 <= i < |quads| ==> cs[i] == annotation.(rect := RectOfQuad(quads[i]))
  {
    if quads == [] then
      []
    else
      [annotation.(rect := RectOfQuad(quads[0]))] + CloneEach(annotation, quads[1..])
  }

  /** The per-quad clones; an annotation without quad points yields none. */
  function Clones(annotation: Annotation): (cs: seq<Annotation>)
    ensures annotation.quadPoints.None? ==> cs == []
  {
    CloneEach(annotation, annotation.quadPoints.GetOr([]))
  }

  /**
   * Each clone differs from the annotation in its rect alone, and its rect is
   * the one its quad (in the same position) describes.
   */
  lemma ClonesCopyAllButRect(annotation: Annotation, i: nat)
    requires annotation.quadPoints.Some? && i < |annotation.quadPoints.value|
    ensures |Clones(annotation)| == |annotation.quadPoints.value|
    ensures var c := Clones(annotation)[i];
      var q := annotation.quadPoints.value[i];
      && c.rect == Rect(q.p0.x, q.p3.y, q.p3.x, q.p0.y)
      && c.(rect := annotation.rect) == annotation
  {
  }

  /** JavaScript truthiness of an optional string. */
  predicate Truthy(s: Option<string>)
  {
    s.Some? && s.value != ""
  }

  /** `isRenderable`: a popup is flagged, or there is a title or some contents. */
  predicate IsRenderable(annotation: Annotation)
  {
    annotation.hasPopup == Some(true) || Truthy(annotation.title) || Truthy(annotation.contents)
  }

  /** The `hasPopup` flag handed down: set only when the annotation's `hasPopup` is exactly `false`. */
  predicate PopupFlag(annotation: Annotation)
  {
    annotation.hasPopup == Some(false)
  }

  /**
   * Viewport rects -> quads (text layer) -> clones (highlight) gives one clone
   * per rect, in order, whose rect is the page rect of that viewport rect.
   */
  lemma {:induction false} HighlightRebuildsPageRects(annotation: Annotation, rects: seq<LTWH>,
                                                      view: Rect, transform: seq<real>)
    requires Nullifiable(transform)
    requires annotation.quadPoints == Some(GetQuadPointsFromViewport(rects, view, transform))
    ensures |Clones(annotation)| == |rects|
    ensures forall i :: 0 <= i < |rects| ==>
      Clones(annotation)[i].rect == GetRectFromViewport(rects[i], view, transform)
  {
    forall i | 0 <= i < |rects|
      ensures Clones(annotation)[i].rect == GetRectFromViewport(rects[i], view, transform)
    {
      RectOfQuadOf(GetRectFromViewport(rects[i], view, transform));
    }
  }

  /**
   * A record built by the normaliser is always renderable, and is not flagged
   * for a popup, since its `hasPopup` is true.
   */
  lemma NormalizedHighlightFlags(id: string, rect: Rect, quadPoints: seq<Quad>,
                                 modifiedAt: DateFields, createdAt: DateFields)
    ensures IsRenderable(GetNormalizeAnnotation(id, rect, quadPoints, modifiedAt, createdAt))
    ensures !PopupFlag(GetNormalizeAnnotation(id, rect, quadPoints, modifiedAt, createdAt))
  {
  }

  /**
   * A new text-selection highlight renders as one clone per selected line
   * rect, each carrying that line's page rect.
   */
  lemma NewHighlightRendersSelection(id: string, boundingRect: Rect, rects: seq<LTWH>, view: Rect,
                                     transform: seq<real>, modifiedAt: DateFields, createdAt: DateFields)
    requires Nullifiable(transform)
    ensures var a := GetNormalizeAnnotation(id, boundingRect,
                                            GetQuadPointsFromViewport(rects, view, transform), modifiedAt, createdAt);
      && |Clones(a)| == |rects|
      && forall i :: 0 <= i < |rects| ==>
           Clones(a)[i].rect == GetRectFromViewport(rects[i], view, transform) && Clones(a)[i].id == id
  {
    var a := GetNormalizeAnnotation(id, boundingRect,
                                    GetQuadPointsFromViewport(rects, view, transform), modifiedAt, createdAt);
    HighlightRebuildsPageRects(a, rects, view, transform);
  }
}
