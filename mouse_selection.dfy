/**
 * The area (drag) selection (src/layers/MouseSelection.tsx): a bounding rect
 * between the drag's two points, a one-pixel minimum size, and the
 * mousedown / mousemove / mouseup handlers over the state `start`, `end`,
 * `locked`.
 *
 * The callbacks a handler fires are returned, in firing order, as a list of
 * `Callback` values.
 */
module MouseSelection {
  import opened Wrappers
  import opened Types

  datatype Coords = Coords(x: real, y: real)

  function Min(a: real, b: real): real
  {
    if a <= b then a else b
  }

  function Abs(a: real): real
  {
    if a < 0.0 then -a else a
  }

  /**
   * `getBoundingRect`: the smallest rect holding both points.  It spans from
   * one point to the other on each axis, so both lie on its closed boundary.
   */
  function GetBoundingRect(start: Coords, end: Coords): (r: LTWH)
    ensures r.width >= 0.0 && r.height >= 0.0
    ensures r.left <= start.x <= r.left + r.width && r.left <= end.x <= r.left + r.width
    ensures r.top <= start.y <= r.top + r.height && r.top <= end.y <= r.top + r.height
    ensures (r.left == start.x && r.left + r.width == end.x) || (r.left == end.x && r.left + r.width == start.x)
    ensures (r.top == start.y && r.top + r.height == end.y) || (r.top == end.y && r.top + r.height == start.y)
  {
    LTWH(Min(end.x, start.x), Min(end.y, start.y), Abs(end.x - start.x), Abs(end.y - start.y))
  }

  /** The bounding rect does not depend on which point the drag started from. */
  lemma BoundingRectSymmetric(a: Coords, b: Coords)
    ensures GetBoundingRect(a, b) == GetBoundingRect(b, a)
  {
  }

  /** `shouldRender`: at least one pixel wide and one pixel high. */
  predicate ShouldRender(r: LTWH)
  {
    r.width >= 1.0 && r.height >= 1.0
  }

  /** A drag is kept exactly when it moved at least one pixel along both axes. */
  lemma ShouldRenderDrag(start: Coords, end: Coords)
    ensures ShouldRender(GetBoundingRect(start, end))
        <==> (end.x - start.x >= 1.0 || start.x - end.x >= 1.0) && (end.y - start.y >= 1.0 || start.y - end.y >= 1.0)
  {
  }

  /** A half-pixel drag from the origin is below the minimum size. */
  lemma HalfPixelDragIsDiscarded()
    ensures !ShouldRender(GetBoundingRect(Coords(0.0, 0.0), Coords(0.5, 0.5)))
  {
  }

  /**
   * The scrolled container around the text layer: its client rect corner and
   * its scroll offsets.  Absent when the text layer is not mounted or has no
   * HTML parent.
   */
  datatype Container = Container(left: real, top: real, scrollLeft: real, scrollTop: real)

  /** `containerCoords`: a page point in the container's scrolled coordinates. */
  function ContainerCoords(pageX: real, pageY: real, container: Option<Container>): (p: Option<Coords>)
    ensures p.Some? <==> container.Some?
  {
    match container
    case None => None
    case Some(c) => Some(Coords(pageX - c.left + c.scrollLeft, pageY - c.top + c.scrollTop))
  }

  /** Back from container coordinates to the page point. */
  function PagePoint(p: Coords, c: Container): Coords
  {
    Coords(p.x + c.left - c.scrollLeft, p.y + c.top - c.scrollTop)
  }

  /**
   * ContainerCoords and PagePoint are inverse: container coordinates keep
   * exactly the information of the page point.
   */
  lemma ContainerCoordsRoundTrip(pageX: real, pageY: real, c: Container, p: Coords)
    ensures PagePoint(ContainerCoords(pageX, pageY, Some(c)).value, c) == Coords(pageX, pageY)
    ensures ContainerCoords(PagePoint(p, c).x, PagePoint(p, c).y, Some(c)) == Some(p)
  {
  }

  /** The callbacks the selection calls on its host. */
  datatype Callback =
    | DragStart
    | DragEnd
    | Selection(image: string, boundingRect: LTWH, resetSelection: ResetHandle)

  class MouseSelector {
    var start: Option<Coords>
    var end: Option<Coords>
    var locked: bool

    /** A locked selection always holds both points, and their rect is big enough to render. */
    ghost predicate Valid()
      reads this
    {
      locked ==> start.Some? && end.Some? && ShouldRender(GetBoundingRect(start.value, end.value))
    }

    constructor ()
      ensures Valid()
      ensures start == None && end == None && !locked
    {
      start, end, locked := None, None, false;
    }

    /** The overlay drawn while both points are known. */
    function Overlay(): Option<LTWH>
      reads this
    {
      if start.Some? && end.Some? then Some(GetBoundingRect(start.value, end.value)) else None
    }

    /**
     * A locked selection always shows an overlay, of at least one pixel along
     * each axis, holding both points of the drag.
     */
    lemma LockedOverlayRenders()
      requires Valid() && locked
      ensures Overlay().Some? && ShouldRender(Overlay().value)
      ensures var o := Overlay().value;
        o.left <= start.value.x <= o.left + o.width && o.left <= end.value.x <= o.left + o.width
        && o.top <= start.value.y <= o.top + o.height && o.top <= end.value.y <= o.top + o.height
    {
    }

    /** `reset`: tell the host the drag ended and forget both points. */
    method Reset() returns (fired: seq<Callback>)
      modifies this
      ensures Valid()
      ensures fired == [DragEnd]
      ensures start == None && end == None && !locked
    {
      fired := [DragEnd];
      start, end, locked := None, None, false;
    }

    /**
     * `mousedownHandler`: `accepted` is what the host's `shouldStart` said of
     * the event.  Refused, the selection resets; accepted, the host hears of
     * the drag start and the pressed point becomes `start`.
     */
    method MouseDown(accepted: bool, pageX: real, pageY: real, container: Option<Container>)
      returns (fired: seq<Callback>)
      modifies this
      ensures Valid()
      ensures !accepted ==> fired == [DragEnd] && start == None && end == None && !locked
      ensures accepted ==> fired == [DragStart] && start == ContainerCoords(pageX, pageY, container)
                           && end == None && !locked
      ensures DragStart in fired <==> accepted
    {
      if !accepted {
        fired := Reset();
        return;
      }
      fired := [DragStart];
      var newStart := ContainerCoords(pageX, pageY, container);
      start, end, locked := newStart, None, false;
    }

    /** `mousemoveHandler`: while a drag is open and not locked, the pointer becomes `end`. */
    method MouseMove(pageX: real, pageY: real, container: Option<Container>) returns (fired: seq<Callback>)
      requires Valid()
      modifies this
      ensures Valid()
      ensures fired == []
      ensures old(start).None? || old(locked) ==> start == old(start) && end == old(end) && locked == old(locked)
      ensures old(start).Some? && !old(locked) ==>
        start == old(start) && end == ContainerCoords(pageX, pageY, container) && !locked
    {
      fired := [];
      if start.None? || locked {
        return;
      }
      end := ContainerCoords(pageX, pageY, container);
    }

    /**
     * `mouseUpHandler`.  Nothing happens without a container or without a
     * start point.  If the target is outside the container or the rect is
     * too small, the selection resets.  Otherwise the release point becomes
     * `end`, the selection locks, and the host receives the area's image, the
     * rect and the reset callback.  `snapshot` stands for `getAreaAsPng` on
     * the page canvas.
     */
    method MouseUp(pageX: real, pageY: real, container: Option<Container>, targetInContainer: bool,
                   snapshot: LTWH -> string) returns (fired: seq<Callback>)
      requires Valid()
      modifies this
      ensures Valid()
      ensures container.None? || old(start).None? ==>
        fired == [] && start == old(start) && end == old(end) && locked == old(locked)
      ensures container.Some? && old(start).Some? ==>
        var ended := ContainerCoords(pageX, pageY, container).value;
        var rect := GetBoundingRect(old(start).value, ended);
        if !targetInContainer || !ShouldRender(rect) then
          fired == [DragEnd] && start == None && end == None && !locked
        else
          && fired == [Selection(snapshot(rect), rect, MouseSelectionReset)]
          && start == old(start) && end == Some(ended) && locked
          && Overlay() == Some(rect)
    {
      fired := [];
      if container.None? {
        return;
      }
      var ended := ContainerCoords(pageX, pageY, container);
      if start.None? || ended.None? {
        return;
      }
      var boundingRect := GetBoundingRect(start.value, ended.value);
      if !targetInContainer || !ShouldRender(boundingRect) {
        fired := Reset();
        return;
      }
      end := ended;
      locked := true;
      var image := snapshot(boundingRect);
      fired := [Selection(image, boundingRect, MouseSelectionReset)];
    }
  }
}
