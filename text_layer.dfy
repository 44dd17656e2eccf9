/**
 * The page's text layer (src/layers/TextLayer.tsx): mapping selections from
 * viewport pixels into PDF page space, the mousedown gate of the area
 * selection, and the ghost annotation awaiting confirmation.
 *
 * `view` is the page's `page.view` box `[x0, y0, x1, y1]`, and `transform`
 * the six entries of the unflipped viewport transform for the current
 * rotation and scale.
 */
module TextLayer {
  import opened Wrappers
  import opened Types
  import opened Transforms
  import opened AnnotationUtils
  import opened AnnotationContext
  import TextSelection

  /**
   * `getRectFromViewport`: undo the viewport transform, then flip the y axis
   * against the page box; the result is `[X0, Y0, X1, Y1]`.
   */
  function GetRectFromViewport(r: LTWH, view: Rect, transform: seq<real>): (p: Rect)
    requires Nullifiable(transform)
    ensures p.x1 - p.x0 == NullifyTransforms(r, transform).width
    ensures p.y1 - p.y0 == NullifyTransforms(r, transform).height
  {
    var n := NullifyTransforms(r, transform);
    var x0 := n.left;
    var y1 := view.y0 + view.y1 - n.top;
    var y0 := y1 - n.height;
    var x1 := x0 + n.width;
    Rect(x0, y0, x1, y1)
  }

  /**
   * The way back from page space to viewport pixels: flip y against the page
   * box and re-apply the transform.
   */
  function ViewportRectOf(p: Rect, view: Rect, transform: seq<real>): LTWH
  {
    ApplyTransform(LTWH(p.x0, view.y0 + view.y1 - p.y1, p.x1 - p.x0, p.y1 - p.y0), transform)
  }

  /** Page rect and viewport rect determine each other: viewport -> page -> viewport is the identity. */
  lemma ViewportPageRoundTrip(r: LTWH, view: Rect, transform: seq<real>)
    requires Nullifiable(transform)
    ensures ViewportRectOf(GetRectFromViewport(r, view, transform), view, transform) == r
  {
    var n := NullifyTransforms(r, transform);
    var p := GetRectFromViewport(r, view, transform);
    assert LTWH(p.x0, view.y0 + view.y1 - p.y1, p.x1 - p.x0, p.y1 - p.y0) == n;
    ApplyAfterNullify(r, transform);
  }

  /** ... and page -> viewport -> page is the identity too. */
  lemma PageViewportRoundTrip(p: Rect, view: Rect, transform: seq<real>)
    requires Nullifiable(transform)
    ensures GetRectFromViewport(ViewportRectOf(p, view, transform), view, transform) == p
  {
    var local := LTWH(p.x0, view.y0 + view.y1 - p.y1, p.x1 - p.x0, p.y1 - p.y0);
    NullifyAfterApply(local, transform);
  }

  /**
   * With the flipping transform [1, 0, 0, -1, 0, 792] on a 612x792 page the
   * rect {left 10, top 10, width 100, height 20} comes out as
   * [10, 30, 110, 10]: the negative y scale makes the height negative, so Y0
   * lies above Y1.  The layer itself always asks pdf.js for the unflipped
   * transform.
   */
  lemma FlippedTransformExample()
    ensures GetRectFromViewport(LTWH(10.0, 10.0, 100.0, 20.0), Rect(0.0, 0.0, 612.0, 792.0),
                                [1.0, 0.0, 0.0, -1.0, 0.0, 792.0])
         == Rect(10.0, 30.0, 110.0, 10.0)
  {
  }

  /**
   * The quad of one page rect.  The rect `[X0, Y0, X1, Y1]` is destructured as
   * `[X0, Y1, X1, Y0]`, so the corners come out top edge first: (X0, Y1),
   * (X1, Y1), (X0, Y0), (X1, Y0) in the rect's own names.
   */
  function QuadOf(p: Rect): (q: Quad)
    ensures q.p0.y == q.p1.y == p.y1 && q.p2.y == q.p3.y == p.y0
    ensures q.p0.x == q.p2.x == p.x0 && q.p1.x == q.p3.x == p.x1
  {
    var Rect(x0, y1, x1, y0) := Rect(p.x0, p.y0, p.x1, p.y1);
    Quad(Point(x0, y0), Point(x1, y0), Point(x0, y1), Point(x1, y1))
  }

  /** `getQuadPointsFromViewport`: one quad per rect, in the rects' order. */
  function GetQuadPointsFromViewport(rects: seq<LTWH>, view: Rect, transform: seq<real>): (qs: seq<Quad>)
    requires Nullifiable(transform)
    ensures |qs| == |rects|
    ensures forall i :: 0 <= i < |rects| ==> qs[i] == QuadOf(GetRectFromViewport(rects[i], view, transform))
  {
    if rects == [] then
      []
    else
      [QuadOf(GetRectFromViewport(rects[0], view, transform))]
        + GetQuadPointsFromViewport(rects[1..], view, transform)
  }

  /**
   * An area selection's rect and its single quad come from the same bounding
   * rect: quad corner 0 is (rect[0], rect[3]) and corner 3 is (rect[2], rect[1]).
   */
  lemma AreaSelectionQuad(boundingRect: LTWH, view: Rect, transform: seq<real>)
    requires Nullifiable(transform)
    ensures var rect := GetRectFromViewport(boundingRect, view, transform);
      var quads := GetQuadPointsFromViewport([boundingRect], view, transform);
      |quads| == 1 &&
      quads[0].p0 == Point(rect.x0, rect.y1) && quads[0].p3 == Point(rect.x1, rect.y0)
  {
  }

  /** The event target of a mousedown: an HTML element with its class name, or something else. */
  datatype Target = Element(className: string) | NonElement

  /** The area selection starts only on an Alt-mousedown on the text layer's own element. */
  predicate ShouldStart(altKey: bool, target: Target, prefixClass: string)
  {
    var cond1 := altKey;
    var cond2 := target.Element? && target.className == prefixClass + "-text-layer";
    cond1 && cond2
  }

  /**
   * An Alt-press that starts an area selection is never on an element of the
   * span class the text selection's mouseup reacts to, whatever the theme's
   * prefix.  This is about the pressed element only: the release of the drag
   * may still land on such a span.
   */
  lemma AreaDragNeverStartsOnTextSpan(altKey: bool, className: string, prefixClass: string)
    requires ShouldStart(altKey, Element(className), prefixClass)
    ensures className != TextSelection.ViewerTextClass
  {
    var layerClass := prefixClass + "-text-layer";
    if |layerClass| == |TextSelection.ViewerTextClass| {
      assert prefixClass == [];
      assert layerClass[0] == '-';
      assert TextSelection.ViewerTextClass[0] == 'v';
    }
  }

  /** The not-yet-confirmed annotation the layer shows a tip for. */
  datatype GhostAnnotation = GhostAnnotation(boundingRect: LTWH, rect: Rect, quadPoints: seq<Quad>, contents: Contents)

  /** The layer's selection state: the ghost annotation and the stored reset callback. */
  class TextLayerView {
    const view: Rect
    const transform: seq<real>
    var disableSelection: bool
    var ghostAnnotation: Option<GhostAnnotation>
    var resetSelection: Option<ResetHandle>

    constructor (view: Rect, transform: seq<real>)
      requires Nullifiable(transform)
      ensures this.view == view && this.transform == transform
      ensures !disableSelection && ghostAnnotation == None && resetSelection == None
    {
      this.view := view;
      this.transform := transform;
      disableSelection := false;
      ghostAnnotation := None;
      resetSelection := None;
    }

    /** `onDragStart` of the area selection. */
    method OnDragStart()
      modifies this
      ensures disableSelection
      ensures ghostAnnotation == old(ghostAnnotation) && resetSelection == old(resetSelection)
    {
      disableSelection := true;
    }

    /** `onDragEnd` of the area selection: selection re-enabled, ghost dropped. */
    method OnDragEnd()
      modifies this
      ensures !disableSelection && ghostAnnotation == None
      ensures resetSelection == old(resetSelection)
    {
      disableSelection := false;
      ghostAnnotation := None;
    }

    /** `onCancel` of the text selection: ghost dropped. */
    method OnTextCancel()
      modifies this
      ensures ghostAnnotation == None
      ensures disableSelection == old(disableSelection) && resetSelection == old(resetSelection)
    {
      ghostAnnotation := None;
    }

    /** `onSelection` of the area selection: a ghost with the area's rect, its one quad and the image. */
    method OnAreaSelection(image: string, boundingRect: LTWH, reset: ResetHandle)
      requires Nullifiable(transform)
      modifies this
      ensures ghostAnnotation == Some(GhostAnnotation(
        boundingRect,
        GetRectFromViewport(boundingRect, view, transform),
        GetQuadPointsFromViewport([boundingRect], view, transform),
        Contents(None, Some(image))))
      ensures resetSelection == Some(reset)
      ensures disableSelection == old(disableSelection)
    {
      var rect := GetRectFromViewport(boundingRect, view, transform);
      var quadPoints := GetQuadPointsFromViewport([boundingRect], view, transform);
      ghostAnnotation := Some(GhostAnnotation(boundingRect, rect, quadPoints, Contents(None, Some(image))));
      resetSelection := Some(reset);
    }

    /** `onSelection` of the text selection: a ghost with the bounding rect, one quad per line rect and the text. */
    method OnTextSelection(text: string, boundingRect: LTWH, rects: seq<LTWH>, reset: ResetHandle)
      requires Nullifiable(transform)
      modifies this
      ensures ghostAnnotation == Some(GhostAnnotation(
        boundingRect,
        GetRectFromViewport(boundingRect, view, transform),
        GetQuadPointsFromViewport(rects, view, transform),
        Contents(Some(text), None)))
      ensures resetSelection == Some(reset)
      ensures disableSelection == old(disableSelection)
    {
      var rect := GetRectFromViewport(boundingRect, view, transform);
      var quadPoints := GetQuadPointsFromViewport(rects, view, transform);
      ghostAnnotation := Some(GhostAnnotation(boundingRect, rect, quadPoints, Contents(Some(text), None)));
      resetSelection := Some(reset);
    }

    /**
     * The tip's `onConfirm` (shown only while a ghost exists): when a reset
     * callback is stored, add the ghost as a new annotation and clear it.  If
     * `addNewAnnotation` throws, the ghost stays.  Returns None when
     * `addNewAnnotation` was not called.
     */
    method OnConfirm(ctx: Context, candidates: seq<string>, modifiedAt: DateFields, createdAt: DateFields)
      returns (outcome: Option<AddOutcome>)
      requires ghostAnnotation.Some?
      requires ctx.Provider? ==> FreshCandidateExists(ExistingIds(ctx.capturedValue), candidates)
      modifies this
      ensures old(resetSelection).None? ==> outcome == None && ghostAnnotation == old(ghostAnnotation)
      ensures old(resetSelection).Some? ==>
        var g := old(ghostAnnotation).value;
        && outcome == Some(NewAnnotationOutcome(ctx, candidates, g.rect, g.quadPoints, g.contents,
                                                old(resetSelection).value, modifiedAt, createdAt))
        && ghostAnnotation == (if outcome.value.Threw? then old(ghostAnnotation) else None)
      ensures resetSelection == old(resetSelection) && disableSelection == old(disableSelection)
    {
      if resetSelection.Some? {
        var g := ghostAnnotation.value;
        var o := AddNewAnnotation(ctx, candidates, g.rect, g.quadPoints, g.contents,
                                  resetSelection.value, modifiedAt, createdAt);
        outcome := Some(o);
        if !o.Threw? {
          ghostAnnotation := None;
        }
      } else {
        outcome := None;
      }
    }
  }
}
