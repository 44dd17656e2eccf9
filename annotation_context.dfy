/**
 * The annotation context (src/contexts/AnnotationContext.tsx): a fresh local
 * id drawn by rejection sampling, the normalised record forwarded to the
 * host's `onNewAnnotation`, and the exposed annotation list.
 *
 * `Math.random` is an oracle: `candidates` lists, in order, the ids the
 * sampling expression would produce.
 */
module AnnotationContext {
  import opened Wrappers
  import opened Types
  import opened Annotations
  import opened AnnotationUtils

  /**
   * Which `addNewAnnotation` a layer sees: the context's default value (no
   * provider above it), or a provider.  A provider holds its current optional
   * `value` list, the `value` its memoised `addNewAnnotation` closed over
   * (`useCallback` is keyed on `onNewAnnotation` alone, so this is the list of
   * the render in which `onNewAnnotation` last changed), and whether the host
   * passed `onNewAnnotation`.
   */
  datatype Context =
    | DefaultContext
    | Provider(value: Option<seq<Annotation>>, capturedValue: Option<seq<Annotation>>, hasOnNewAnnotation: bool)

  /** What one call of `addNewAnnotation` did. */
  datatype AddOutcome =
    | Threw(message: string)
    | Dispatched(annotation: Annotation, contents: Contents, hideTipAndSelection: ResetHandle)
    | Dropped

  const NotImplementedMessage := "Not implement AnnotationContext.onNewAnnotation"

  /** The ids already in use: those of `value`, or none when it is absent. */
  function ExistingIds(value: Option<seq<Annotation>>): (ids: seq<string>)
    ensures value.None? ==> ids == []
    ensures value.Some? ==> |ids| == |value.value|
    ensures value.Some? ==> forall i :: 0 <= i < |ids| ==> ids[i] == value.value[i].id
  {
    match value
    case None => []
    case Some(annotations) => seq(|annotations|, i requires 0 <= i < |annotations| => annotations[i].id)
  }

  /** The oracle eventually draws an id not in use. */
  predicate FreshCandidateExists(existing: seq<string>, candidates: seq<string>)
  {
    exists i :: 0 <= i < |candidates| && candidates[i] !in existing
  }

  /** The first candidate not in use: the id rejection sampling settles on. */
  function FirstFresh(existing: seq<string>, candidates: seq<string>): string
    requires FreshCandidateExists(existing, candidates)
    decreases |candidates|
  {
    if candidates[0] !in existing then candidates[0]
    else
      assert FreshCandidateExists(existing, candidates[1..]) by {
        var i :| 0 <= i < |candidates| && candidates[i] !in existing;
        assert candidates[1..][i - 1] == candidates[i];
      }
      FirstFresh(existing, candidates[1..])
  }

  /** The id sampling settles on is one of the candidates and is not in use. */
  lemma {:induction false} FirstFreshIsFresh(existing: seq<string>, candidates: seq<string>)
    requires FreshCandidateExists(existing, candidates)
    ensures FirstFresh(existing, candidates) !in existing
    ensures FirstFresh(existing, candidates) in candidates
    decreases |candidates|
  {
    if candidates[0] in existing {
      var i :| 0 <= i < |candidates| && candidates[i] !in existing;
      assert candidates[1..][i - 1] == candidates[i];
      FirstFreshIsFresh(existing, candidates[1..]);
    }
  }

  /** FirstFresh is the candidate at the first index whose id is not in use. */
  lemma {:induction false} FirstFreshAt(existing: seq<string>, candidates: seq<string>, k: nat)
    requires k < |candidates| && candidates[k] !in existing
    requires forall j :: 0 <= j < k ==> candidates[j] in existing
    ensures FreshCandidateExists(existing, candidates)
    ensures FirstFresh(existing, candidates) == candidates[k]
    decreases k
  {
    if k > 0 {
      assert candidates[1..][k - 1] == candidates[k];
      FirstFreshAt(existing, candidates[1..], k - 1);
    }
  }

  /** With no existing annotations, the first candidate is taken. */
  lemma FirstFreshWithoutAnnotations(candidates: seq<string>)
    requires |candidates| > 0
    ensures FreshCandidateExists(ExistingIds(None), candidates)
    ensures FirstFresh(ExistingIds(None), candidates) == candidates[0]
  {
    assert candidates[0] !in ExistingIds(None);
  }

  /**
   * `getLocalId`: draw a candidate, and draw again while it is already in use.
   * `drawn` is how many candidates the loop consumed.
   */
  method GetLocalId(value: Option<seq<Annotation>>, candidates: seq<string>) returns (id: string, drawn: nat)
    requires FreshCandidateExists(ExistingIds(value), candidates)
    ensures id == FirstFresh(ExistingIds(value), candidates)
    ensures 1 <= drawn <= |candidates| && id == candidates[drawn - 1]
    ensures id !in ExistingIds(value)
    ensures forall j :: 0 <= j < drawn - 1 ==> candidates[j] in ExistingIds(value)
  {
    var existing := ExistingIds(value);
    ghost var w :| 0 <= w < |candidates| && candidates[w] !in existing;
    id := candidates[0];
    drawn := 1;
    while id in existing
      invariant 1 <= drawn <= w + 1
      invariant id == candidates[drawn - 1]
      invariant forall j :: 0 <= j < drawn - 1 ==> candidates[j] in existing
      decreases w + 1 - drawn
    {
      id := candidates[drawn];
      drawn := drawn + 1;
    }
    FirstFreshAt(existing, candidates, drawn - 1);
  }

  /**
   * `addNewAnnotation` as a function of its arguments.  Without a provider it
   * throws the "not implemented" error; a provider without `onNewAnnotation`
   * does nothing; otherwise the host receives, once, the normalised record
   * built around an id fresh against the captured list, with the given rect
   * and quads, and with the contents and the hideTip callback unchanged.
   */
  function NewAnnotationOutcome(ctx: Context, candidates: seq<string>, rect: Rect, quadPoints: seq<Quad>,
                                contents: Contents, hideTipAndSelection: ResetHandle,
                                modifiedAt: DateFields, createdAt: DateFields): (o: AddOutcome)
    requires ctx.Provider? ==> FreshCandidateExists(ExistingIds(ctx.capturedValue), candidates)
    ensures ctx.DefaultContext? <==> o.Threw?
    ensures o.Threw? ==> o.message == "Not implement AnnotationContext.onNewAnnotation"
    ensures o.Dropped? <==> ctx.Provider? && !ctx.hasOnNewAnnotation
    ensures o.Dispatched? ==>
      && o.annotation.id !in ExistingIds(ctx.capturedValue)
      && o.annotation.id in candidates
      && o.annotation.rect == rect
      && o.annotation.quadPoints == Some(quadPoints)
      && o.annotation.subtype == "Highlight"
      && o.contents == contents
      && o.hideTipAndSelection == hideTipAndSelection
      && o.annotation == GetNormalizeAnnotation(o.annotation.id, rect, quadPoints, modifiedAt, createdAt)
  {
    match ctx
    case DefaultContext => Threw(NotImplementedMessage)
    case Provider(_, captured, hasHandler) =>
      if hasHandler then
        var id := FirstFresh(ExistingIds(captured), candidates);
        FirstFreshIsFresh(ExistingIds(captured), candidates);
        Dispatched(GetNormalizeAnnotation(id, rect, quadPoints, modifiedAt, createdAt), contents, hideTipAndSelection)
      else Dropped
  }

  /**
   * `addNewAnnotation`: in a provider, draw a fresh id, normalise the record
   * and hand it to `onNewAnnotation` when the host gave one.
   */
  method AddNewAnnotation(ctx: Context, candidates: seq<string>, rect: Rect, quadPoints: seq<Quad>,
                          contents: Contents, hideTipAndSelection: ResetHandle,
                          modifiedAt: DateFields, createdAt: DateFields) returns (outcome: AddOutcome)
    requires ctx.Provider? ==> FreshCandidateExists(ExistingIds(ctx.capturedValue), candidates)
    ensures outcome == NewAnnotationOutcome(ctx, candidates, rect, quadPoints, contents,
                                            hideTipAndSelection, modifiedAt, createdAt)
  {
    match ctx {
      case DefaultContext =>
        outcome := Threw(NotImplementedMessage);
      case Provider(_, captured, hasHandler) =>
        var id, _ := GetLocalId(captured, candidates);
        var annotation := GetNormalizeAnnotation(id, rect, quadPoints, modifiedAt, createdAt);
        outcome := if hasHandler then Dispatched(annotation, contents, hideTipAndSelection) else Dropped;
    }
  }

  /** `useAnnotationState`: the provider's current `value`, or the empty list. */
  function AnnotationState(ctx: Context): seq<Annotation>
  {
    match ctx
    case DefaultContext => []
    case Provider(value, _, _) => value.GetOr([])
  }

  /**
   * While the captured list is the current one (on the first render, or when
   * the host hands a new `onNewAnnotation` every render), the exposed state
   * and the ids checked for collisions are the same annotations, so a new id
   * is fresh against the exposed state.
   */
  lemma StateIdsAreExistingIds(ctx: Context)
    requires ctx.Provider? && ctx.capturedValue == ctx.value
    ensures |AnnotationState(ctx)| == |ExistingIds(ctx.capturedValue)|
    ensures forall i :: 0 <= i < |AnnotationState(ctx)| ==> AnnotationState(ctx)[i].id == ExistingIds(ctx.capturedValue)[i]
  {
  }

  /**
   * With a stale capture the check misses annotations added since: a provider
   * whose closure still sees no annotations hands out the id "123A" although
   * the exposed state already holds an annotation with that id.
   */
  lemma StaleCaptureCanCollide(existing: Annotation, rect: Rect, quadPoints: seq<Quad>, contents: Contents,
                               modifiedAt: DateFields, createdAt: DateFields)
    requires existing.id == "123A"
    ensures FreshCandidateExists(ExistingIds(None), ["123A"])
    ensures var ctx := Provider(Some([existing]), None, true);
      var o := NewAnnotationOutcome(ctx, ["123A"], rect, quadPoints, contents, TextSelectionReset, modifiedAt, createdAt);
      && o.Dispatched?
      && o.annotation.id == AnnotationState(ctx)[0].id
  {
    assert ["123A"][0] !in ExistingIds(None);
  }
}
