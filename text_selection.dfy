/**
 * The text selection (src/layers/TextSelection.tsx): the browser range's
 * client rects moved into the text layer's coordinates, and the `positions`
 * list the mouseup and reset handlers keep.
 *
 * The reduction of overlapping rects (`optimizeClientRects`) is not part of
 * this model; it is a parameter of the selector.
 */
module TextSelection {
  import opened Wrappers
  import opened Types

  /** The top-left corner of the text layer's client bounding rect. */
  datatype Offset = Offset(left: real, top: real)

  /** One client rect in the layer's coordinates: the corner moves, the size stays. */
  function Translate(r: LTWH, c: Offset): LTWH
  {
    LTWH(r.left - c.left, r.top - c.top, r.width, r.height)
  }

  /** Translation is undone by moving the corner back. */
  lemma TranslateInvertible(r: LTWH, c: Offset)
    ensures Translate(Translate(r, c), Offset(-c.left, -c.top)) == r
  {
  }

  /** `getClientRects`: the range's client rects, translated one by one, count and order kept. */
  function GetClientRects(clientRects: seq<LTWH>, c: Offset): (rs: seq<LTWH>)
    ensures |rs| == |clientRects|
    ensures forall i :: 0 <= i < |clientRects| ==>
      rs[i].left == clientRects[i].left - c.left && rs[i].top == clientRects[i].top - c.top
      && rs[i].width == clientRects[i].width && rs[i].height == clientRects[i].height
  {
    if clientRects == [] then
      []
    else
      [Translate(clientRects[0], c)] + GetClientRects(clientRects[1..], c)
  }

  /** `getBoundingtRect`: the range's bounding rect, translated the same way. */
  function GetRangeBoundingRect(bounding: LTWH, c: Offset): (r: LTWH)
    ensures r == GetClientRects([bounding], c)[0]
  {
    Translate(bounding, c)
  }

  /** A rect inside another. */
  predicate Inside(r: LTWH, outer: LTWH)
  {
    outer.left <= r.left && r.left + r.width <= outer.left + outer.width &&
    outer.top <= r.top && r.top + r.height <= outer.top + outer.height
  }

  /**
   * Client rects inside the range's bounding rect stay inside the translated
   * bounding rect: both go through the same translation.
   */
  lemma TranslatedRectsStayInside(clientRects: seq<LTWH>, bounding: LTWH, c: Offset)
    requires forall i :: 0 <= i < |clientRects| ==> Inside(clientRects[i], bounding)
    ensures forall i :: 0 <= i < |clientRects| ==>
      Inside(GetClientRects(clientRects, c)[i], GetRangeBoundingRect(bounding, c))
  {
  }

  /** The browser's native range, as far as the handler reads it. */
  datatype NativeRange = NativeRange(clientRects: seq<LTWH>, boundingRect: LTWH, hasParentElement: bool)

  /**
   * The rangy selection after its word expansion: its text, its range count
   * and the native range of its first range (if that is present).
   */
  datatype RangySelection = RangySelection(text: string, rangeCount: nat, firstRange: Option<NativeRange>)

  /** The callbacks the text selection calls on its host. */
  datatype Callback =
    | Cancel
    | Selected(text: string, boundingRect: LTWH, rects: seq<LTWH>, resetSelection: ResetHandle)

  /** What the mouseup handler did. */
  datatype MouseUpResult = Ignored | ThrewOnMissingSelection | Cleared | Fired(callback: Callback)

  const ViewerTextClass := "viewer-text"

  class TextSelector {
    /** `optimizeClientRects`, the reduction of the translated rects. */
    const optimize: seq<LTWH> -> seq<LTWH>
    /** `postions`: the rects drawn as the selection overlay. */
    var positions: seq<LTWH>

    constructor (optimize: seq<LTWH> -> seq<LTWH>)
      ensures this.optimize == optimize && positions == []
    {
      this.optimize := optimize;
      positions := [];
    }

    /** `reset`: tell the host the selection is cancelled and clear the overlay. */
    method Reset() returns (fired: seq<Callback>)
      modifies this
      ensures fired == [Cancel] && positions == []
    {
      fired := [Cancel];
      positions := [];
    }

    /** `mousedownHandler`: with a selection object at hand, reset. */
    method MouseDown(selection: Option<RangySelection>) returns (fired: seq<Callback>)
      modifies this
      ensures selection.None? ==> fired == [] && positions == old(positions)
      ensures selection.Some? ==> fired == [Cancel] && positions == []
    {
      if selection.None? {
        fired := [];
        return;
      }
      fired := Reset();
    }

    /**
     * `mouseupHandler`.  Only a release on an element whose class is exactly
     * "viewer-text" counts.  The selection is expanded before it is checked,
     * so a missing selection throws.  Otherwise the overlay is cleared and,
     * for a non-empty text with a usable range inside a mounted layer, set to
     * the reduced translated rects, which the host receives together with the
     * translated bounding rect and the reset callback.
     */
    method MouseUp(className: string, selection: Option<RangySelection>, layer: Option<Offset>)
      returns (result: MouseUpResult)
      modifies this
      ensures className != ViewerTextClass ==> result == Ignored && positions == old(positions)
      ensures className == ViewerTextClass && selection.None? ==>
        result == ThrewOnMissingSelection && positions == old(positions)
      ensures className == ViewerTextClass && selection.Some? ==>
        var sel := selection.value;
        if sel.text != "" && sel.rangeCount >= 1 && sel.firstRange.Some?
           && sel.firstRange.value.hasParentElement && layer.Some? then
          var range := sel.firstRange.value;
          var rects := optimize(GetClientRects(range.clientRects, layer.value));
          && positions == rects
          && result == Fired(Selected(sel.text, GetRangeBoundingRect(range.boundingRect, layer.value),
                                      rects, TextSelectionReset))
        else
          positions == [] && result == Cleared
    {
      if className != ViewerTextClass {
        return Ignored;
      }
      if selection.None? {
        return ThrewOnMissingSelection;
      }
      var sel := selection.value;
      positions := [];
      result := Cleared;
      if sel.text != "" && sel.rangeCount >= 1 {
        var range := sel.firstRange;
        if range.Some? && range.value.hasParentElement && layer.Some? {
          var rects := optimize(GetClientRects(range.value.clientRects, layer.value));
          var bounding := GetRangeBoundingRect(range.value.boundingRect, layer.value);
          positions := rects;
          result := Fired(Selected(sel.text, bounding, rects, TextSelectionReset));
        }
      }
    }
  }
}
