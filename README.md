# pdf-annotation-viewer: the selection-to-highlight core in Dafny

The viewer renders pdf.js pages into DOM layers and lets a user create highlight
annotations. This project models the part that is logic rather than UI. That part
turns a mouse drag or a text selection into a PDF highlight record:

- `Transforms` (nullify_transforms.dfy) undoes the pdf.js viewport transform on a
  rectangle with the closed-form 2x2 inverse.
- `TextLayer` (text_layer.dfy) maps viewport rects into page space (Y flipped against
  `page.view`) and into highlight quads. It also models the Alt-mousedown gate and the
  ghost annotation that waits for confirmation.
- `Highlight` (highlight.dfy) rebuilds one rect per quad when a highlight is drawn. It
  also computes the `isRenderable` and `hasPopup` flags.
- `MouseSelection` (mouse_selection.dfy) is the drag-selection state machine over
  `start`, `end` and `locked`, together with its bounding-rect and minimum-size functions.
- `TextSelection` (text_selection.dfy) translates client rects into the layer's
  coordinates and keeps the `positions` overlay list.
- `AnnotationUtils` (annotation_utils.dfy) holds the two-digit padding, the PDF date
  string `D:YYYYMMDDHHmmSS+HH'mm'` (section 7.9.4 of ISO 32000-1) and the record builder.
- `AnnotationContext` (annotation_context.dfy) draws a fresh id by rejection sampling,
  dispatches the new record to the host and exposes the annotation list.
- `Types`, `Annotations` and `Wrappers` hold the shared shapes: LTWH, page rect, point,
  quad, contents, the annotation record, and Option.

Modelling choices:

- Coordinates are `real`.
- The callbacks a handler fires are returned as a list of `Callback` values.
- The `resetSelection` closures are `ResetHandle` tokens that name the layer they reset.
- `Math.random` is an oracle: a list of candidate ids.
- A `Date` is a `DateFields` record. Its `gmtOffset` holds the text the `GMT(.\w+)` match
  found after "GMT".
- The canvas snapshot (`getAreaAsPng`) and the rect reducer (`optimizeClientRects`) are
  function parameters.

Behaviour of the code that the model makes explicit:

- `nullifyTransforms` divides by the determinant and by both scale entries
  without checking them. The model makes the three divisors a precondition
  (`Nullifiable`).
- `getRectFromViewport` is meant for the unflipped transform the layer asks
  pdf.js for. With the flipping transform `[1, 0, 0, -1, 0, 792]` the height
  comes out negative, and the rect `{10, 10, 100, 20}` maps to
  `[10, 30, 110, 10]` (`TextLayer.FlippedTransformExample`).
- `addNewAnnotation` throws only without a provider. Inside a provider with no
  `onNewAnnotation` it silently does nothing.
- `addNewAnnotation` is memoised on `onNewAnnotation` alone, so its collision
  check reads the `value` of the render in which `onNewAnnotation` last
  changed. The model keeps that list (`capturedValue`) apart from the current
  `value`, and `AnnotationContext.StaleCaptureCanCollide` shows a new id
  colliding with an annotation the exposed state already holds.
- The text selection's mouseup expands the selection before checking that
  there is one, so a missing selection throws.

## Model

| member | source | states |
|---|---|---|
| Transforms.NullifyTransforms | src/utils/nullifyTransforms.ts:3-25 | a transform whose length is not 6 returns the rectangle unchanged; otherwise the three divisors (det, t0, t3) must be non-zero |
| Transforms.NullifyCornerIsPreimage | src/utils/nullifyTransforms.ts:14-20 | the nullified corner is a preimage: t0·left' + t2·top' + t4 = left and t1·left' + t3·top' + t5 = top |
| Transforms.ApplyAfterNullify | src/utils/nullifyTransforms.ts:13-21 | re-applying the transform (corner through the affine map, size through the scales) to the nullified rect gives back the screen rect |
| Transforms.NullifyAfterApply | src/utils/nullifyTransforms.ts:13-21 | nullifying the image of a rect gives back the rect, so the two maps are inverse bijections |
| Transforms.NullifyIdentity | src/utils/nullifyTransforms.ts:14-20 | the identity matrix [1,0,0,1,0,0] leaves every rect unchanged |
| Transforms.NullifyTranslation | src/utils/nullifyTransforms.ts:17-20 | a pure translation [1,0,0,1,e,f] gives left − e, top − f and keeps width and height |
| Transforms.NullifySizeIgnoresShear | src/utils/nullifyTransforms.ts:17-18 | width depends only on t0 and height only on t3; shear and translation never change the size |
| Transforms.NullifyKeepsSizeNonNegative | src/utils/nullifyTransforms.ts:17-18 | with t0 > 0 and t3 > 0 a non-negative width and height stay non-negative |
| TextLayer.GetRectFromViewport | src/layers/TextLayer.tsx:52-72 | X1 − X0 is the nullified width and Y1 − Y0 the nullified height |
| TextLayer.ViewportPageRoundTrip | src/layers/TextLayer.tsx:63-69 | mapping the page rect back (Y flip against view[1] + view[3], then the transform) recovers the viewport rect |
| TextLayer.PageViewportRoundTrip | src/layers/TextLayer.tsx:63-69 | the other direction: page rect → viewport → page rect is the identity |
| TextLayer.FlippedTransformExample | src/layers/TextLayer.tsx:63-69 | with transform [1,0,0,-1,0,792] and page box [0,0,612,792], the rect {10,10,100,20} maps to [10,30,110,10] |
| TextLayer.QuadOf | src/layers/TextLayer.tsx:77-83 | because of the swapped destructuring, the corners come top edge (Y1) first, then the bottom edge (Y0), each from X0 to X1 |
| TextLayer.GetQuadPointsFromViewport | src/layers/TextLayer.tsx:74-87 | exactly one quad per input rect, in input order, each the quad of that rect's page rect |
| TextLayer.AreaSelectionQuad | src/layers/TextLayer.tsx:264-266 | an area selection has one quad, whose corner 0 is (rect[0], rect[3]) and corner 3 is (rect[2], rect[1]) |
| TextLayer.AreaDragNeverStartsOnTextSpan | src/layers/TextLayer.tsx:257-263 | the element of a mousedown the area selection accepts (Alt held, class `${prefix}-text-layer`) is never of the "viewer-text" class the text selection's mouseup reacts to, for every prefix |
| TextLayer.TextLayerView.constructor | src/layers/TextLayer.tsx:221-229 | selection enabled, no ghost annotation, no stored reset callback |
| TextLayer.TextLayerView.OnDragStart | src/layers/TextLayer.tsx:246-248 | disables text selection and changes nothing else |
| TextLayer.TextLayerView.OnDragEnd | src/layers/TextLayer.tsx:249-252 | re-enables text selection and clears the ghost |
| TextLayer.TextLayerView.OnTextCancel | src/layers/TextLayer.tsx:280-282 | clears the ghost and changes nothing else |
| TextLayer.TextLayerView.OnAreaSelection | src/layers/TextLayer.tsx:264-275 | the ghost holds the bounding rect, its page rect, its single quad and the image; the reset callback is stored |
| TextLayer.TextLayerView.OnTextSelection | src/layers/TextLayer.tsx:283-293 | the ghost holds the bounding rect's page rect, one quad per line rect and the text; the reset callback is stored |
| TextLayer.TextLayerView.OnConfirm | src/layers/TextLayer.tsx:298-308 | addNewAnnotation is called only when a reset callback is stored, with the ghost's rect, quads and contents; afterwards the ghost is cleared unless the call threw |
| Highlight.RectOfQuadOf | src/annotations/Highlight.tsx:41 | rebuilding [q0.x, q3.y, q3.x, q0.y] from the quad of a page rect gives back that page rect |
| Highlight.CloneEach | src/annotations/Highlight.tsx:37-45 | one clone per quad, in quad order, each the annotation with only its rect replaced by its quad's rect |
| Highlight.Clones | src/annotations/Highlight.tsx:37 | an annotation without quadPoints yields no clones |
| Highlight.ClonesCopyAllButRect | src/annotations/Highlight.tsx:39-42 | clone i has rect [q[0].x, q[3].y, q[3].x, q[0].y] of quad i, and every other field equals the annotation's |
| Highlight.HighlightRebuildsPageRects | src/annotations/Highlight.tsx:37-45 | quads built by getQuadPointsFromViewport come back as one clone per viewport rect, each with that rect's getRectFromViewport page rect |
| Highlight.NormalizedHighlightFlags | src/annotations/Highlight.tsx:28-33 | a normalised record is always renderable (hasPopup true, or a non-empty title or contents, by JavaScript truthiness) and its popup flag (hasPopup exactly false) is never set |
| Highlight.NewHighlightRendersSelection | src/annotations/Highlight.tsx:37-45 | a new text highlight renders one clone per selected line rect, each with that line's page rect and the record's id |
| MouseSelection.GetBoundingRect | src/layers/MouseSelection.tsx:26-34 | width and height are non-negative; on each axis the rect spans from one point to the other, so both points lie in the closed rect |
| MouseSelection.BoundingRectSymmetric | src/layers/MouseSelection.tsx:26-34 | the bounding rect is symmetric in start and end |
| MouseSelection.ShouldRenderDrag | src/layers/MouseSelection.tsx:36-38 | a drag is kept iff it moved at least one pixel along both axes |
| MouseSelection.HalfPixelDragIsDiscarded | src/layers/MouseSelection.tsx:36-38 | a drag from (0,0) to (0.5,0.5) is below the minimum size |
| MouseSelection.ContainerCoords | src/layers/MouseSelection.tsx:63-84 | the result is present exactly when the container is mounted |
| MouseSelection.ContainerCoordsRoundTrip | src/layers/MouseSelection.tsx:78-81 | x = pageX − left + scrollLeft and y = pageY − top + scrollTop is inverted by adding the offsets back, in both directions |
| MouseSelection.MouseSelector.constructor | src/layers/MouseSelection.tsx:51-53 | starts with no start, no end and unlocked |
| MouseSelection.MouseSelector.LockedOverlayRenders | src/layers/MouseSelection.tsx:175-180 | a locked selection always draws an overlay at least one pixel wide and high that holds both points of the drag |
| MouseSelection.MouseSelector.Reset | src/layers/MouseSelection.tsx:56-61 | calls onDragEnd and clears start, end and locked |
| MouseSelection.MouseSelector.MouseDown | src/layers/MouseSelection.tsx:86-101 | a refused mousedown resets (onDragEnd only); an accepted one calls onDragStart, sets start, clears end and unlocks; onDragStart fires iff accepted |
| MouseSelection.MouseSelector.MouseMove | src/layers/MouseSelection.tsx:103-112 | nothing changes without start or when locked; otherwise only end is updated |
| MouseSelection.MouseSelector.MouseUp | src/layers/MouseSelection.tsx:114-159 | without a container or start nothing happens; an outside target or a too-small rect resets without onSelection; otherwise end is set, the selection locks, onSelection gets the snapshot, the bounding rect and reset, and the overlay drawn is exactly that bounding rect; a locked selection always renders |
| TextSelection.TranslateInvertible | src/layers/TextSelection.tsx:30-35 | the translation into layer coordinates is undone by the opposite offset |
| TextSelection.GetClientRects | src/layers/TextSelection.tsx:26-37 | count and order are preserved; left and top drop by the layer's left and top; width and height are copied |
| TextSelection.GetRangeBoundingRect | src/layers/TextSelection.tsx:39-48 | the range's bounding rect goes through the same translation as its client rects |
| TextSelection.TranslatedRectsStayInside | src/layers/TextSelection.tsx:26-48 | client rects inside the range's bounding rect stay inside it after translation |
| TextSelection.TextSelector.constructor | src/layers/TextSelection.tsx:55 | positions start empty |
| TextSelection.TextSelector.Reset | src/layers/TextSelection.tsx:57-60 | calls onCancel and empties positions |
| TextSelection.TextSelector.MouseDown | src/layers/TextSelection.tsx:62-67 | with a selection object, resets; without one, nothing |
| TextSelection.TextSelector.MouseUp | src/layers/TextSelection.tsx:69-100 | returns at once unless className is exactly "viewer-text"; a missing selection throws at expand; otherwise positions is cleared and, for a non-empty usable selection, becomes optimizeClientRects of the translated rects, which onSelection receives with the translated bounding rect and reset |
| AnnotationUtils.DecimalRoundTrip | src/utils/annotationUtils.ts:10-15 | the decimal digits of a whole number read back as that number |
| AnnotationUtils.Stringify | src/utils/annotationUtils.ts:5-7 | the result is always two digit characters |
| AnnotationUtils.StringifyDigits | src/utils/annotationUtils.ts:5-7 | "0" + n cut to its last two characters gives the tens and units digits of n ("07" for 7, "23" for 123) |
| AnnotationUtils.StringifyValue | src/utils/annotationUtils.ts:5-7 | the padded field reads back as n mod 100, so exactly n for 0..99 |
| AnnotationUtils.GetDateString | src/utils/annotationUtils.ts:9-24 | the string starts with "D:" and has at least 12 characters; it is exactly "D:", the year and ten field digits long iff no offset was found |
| AnnotationUtils.DateStringSegments | src/utils/annotationUtils.ts:9-24 | the date string starts with "D:" and the year's digits, then ten field digits; with no offset it ends there, otherwise the offset suffix follows |
| AnnotationUtils.DateStringLayout | src/utils/annotationUtils.ts:10-15 | the year reads back from position 2, then the padded month+1, day, hours, minutes and seconds follow two characters each, in that order |
| AnnotationUtils.TimezoneSuffixOfOffset | src/utils/annotationUtils.ts:20-21 | a five-character offset becomes its first three characters, a quote, the last two, a quote ("+0700" → "+07'00'") |
| AnnotationUtils.DateStringWidth | src/utils/annotationUtils.ts:9-24 | a four-digit year gives 16 characters, or 23 with a "+HHmm" offset |
| AnnotationUtils.GetNormalizeAnnotation | src/utils/annotationUtils.ts:28-55 | id, rect and quadPoints pass through; each date is the getDateString output of its own clock read, so it is "D:", then the year reading back as the clock's year, then month+1, day, hours, minutes and seconds padded to two digits, then the offset suffix if one was found |
| AnnotationUtils.NormalizedAnnotationFields | src/utils/annotationUtils.ts:28-55 | flags 4, type 9, "Highlight", color [255,237,0], border 1/1/[3]/0/0, hasPopup and hasAppearance true, empty contents and title |
| AnnotationContext.ExistingIds | src/contexts/AnnotationContext.tsx:58 | the ids of value, in order, or none when value is undefined |
| AnnotationContext.FirstFreshIsFresh | src/contexts/AnnotationContext.tsx:60-68 | the id sampling settles on is one of the candidates and is not among the existing ids |
| AnnotationContext.FirstFreshAt | src/contexts/AnnotationContext.tsx:60-68 | it is the first candidate that does not collide |
| AnnotationContext.FirstFreshWithoutAnnotations | src/contexts/AnnotationContext.tsx:58-68 | with value undefined the first candidate is accepted |
| AnnotationContext.GetLocalId | src/contexts/AnnotationContext.tsx:57-70 | the do-while loop returns the first candidate not in use: every candidate drawn before it collided, it is the last one drawn, and it is fresh |
| AnnotationContext.NewAnnotationOutcome | src/contexts/AnnotationContext.tsx:55-77 | without a provider it throws "Not implement AnnotationContext.onNewAnnotation"; a provider without onNewAnnotation does nothing; otherwise the handler gets, once, the "Highlight" record with an id fresh against the captured list and the given rect and quads, plus the unchanged contents and hide callback; the record is exactly the normaliser's output for that id, rect, quads and clock reads |
| AnnotationContext.AddNewAnnotation | src/contexts/AnnotationContext.tsx:55-77 | the method (sampling loop, then dispatch) computes NewAnnotationOutcome |
| AnnotationContext.StateIdsAreExistingIds | src/contexts/AnnotationContext.tsx:58-83 | while the list the memoised callback captured is the current `value`, the exposed state (value, or [] when absent) and the ids checked for collisions are the same annotations |
| AnnotationContext.StaleCaptureCanCollide | src/contexts/AnnotationContext.tsx:55-83 | when the callback still sees an older list, the id it hands out can equal the id of an annotation in the exposed state |

## Left out

- NullifyTransforms: requires det, t0 and t3 to be non-zero when the transform has six entries. The source divides unchecked and produces Infinity or NaN. This hits 90° and 270° rotations, whose pdf.js transforms have zero scale entries. `real` has no Infinity, so those rotations are outside the model. GetRectFromViewport, GetQuadPointsFromViewport and the TextLayerView selection methods carry the same requirement.
- Floating point: coordinates are exact reals. Rounding, NaN and Infinity are not modelled.
- Text-layer rendering (cancel-then-replace of pdf.js render tasks), `empty`, keyword highlighting, `unhighlightAll` and `scrollToMatch` are left out. They are asynchronous DOM mutation and RegExp search over spans.
- The tooltip position arithmetic and the TipContainer placement are UI layout.
- `getAreaAsPng` needs a canvas, `devicePixelRatio` and PNG encoding. It is the `snapshot` parameter of MouseUp.
- `optimizeClientRects` is not part of this model. It is the `optimize` parameter of TextSelector, an uninterpreted function, so nothing is claimed about what it keeps.
- The rangy word expansion and `removeAllRanges` are a foreign library and browser selection. A selection arrives already expanded.
- StateIdsAreExistingIds: holds only while the captured list is the current one. Which render's list the memoised `addNewAnnotation` closed over depends on React's memoisation, which is not modelled, so `capturedValue` is an input of the context.
- React wiring is not modelled: event-listener registration, state batching (each `setState` is an immediate update here), and handlers that capture stale props.
- The `removeEventListener` call inside the mouseup handler is left out. It removes a fresh closure that was never added, so it has no effect.
- GetLocalId: the format of a candidate (three digits of `Math.random()` and one upper-case letter) is not modelled. The oracle is assumed to yield a fresh id eventually. The source loop has no retry cap.
- DateFields: `Date.toString()` and its regular-expression match are replaced by the matched offset text. Negative years are not modelled.
- A quad is exactly four points. pdf.js groups quad points by four, and a shorter group (undefined coordinates in the source) is not modelled.
- The annotation record keeps only the fields this core reads or writes. `label`, `parentId`, `file`, `inkLists`, `vertices`, `action`, `url` and the rest are not modelled; a clone copies them unchanged.
- `useSelectionPopover`, `useAnnotationPopover` and the popover components are UI. The unused `onChange` prop of the mouse selection is not modelled either.
- AreaDragNeverStartsOnTextSpan: speaks only of the pressed element. The text selection's mousedown resets on every press that has a selection object, and an Alt-drag released over a "viewer-text" span reaches both mouseup handlers. The model keeps the two selectors separate and does not describe that shared release.
- The drag-selection state is kept and updated on the MouseSelector object. The wiring from its callbacks into the TextLayerView (onDragStart, onDragEnd, onSelection) is not modelled as one composed machine.
