/**
 * The map view's measurement panel and dataset layers. A draw event hands over the
 * features the drawing tool holds (`draw.getAll().features`); the rounded Turf
 * measurements of a shape are supplied by `measure`. `Step` is the handler
 * `updateShape` as written; `CorrectedStep` is the same handler with its two defects
 * repaired (see `RenderFailsAfterPolygonOrLine` and `EmptyCommitKeepsLineSlots`).
 */
module MapView {
  import opened Wrappers
  import opened Json
  import Text

  /** The three map events `updateShape` is registered for. */
  datatype EventType = DrawCreate | DrawDelete | DrawUpdate

  /** A drawn feature: its id, `geometry.type` and `geometry.coordinates`. */
  datatype DrawnFeature = DrawnFeature(id: string, geometryType: string, coordinates: Json)

  /**
   * The displayed values for a shape: the area in km² (square metres rounded to two
   * decimals, divided by 10^6), and the km and miles each rounded to two decimals.
   */
  datatype Measures = Measures(areaKm: real, lengthKm: real, lengthMiles: real)

  type Measure = DrawnFeature -> Measures

  /** An entry `{ id, coordinates }` of the `points` state. */
  datatype PlacedPoint = PlacedPoint(id: string, coordinates: Json)

  /** The four state slots; `None` is JavaScript's `null`. */
  datatype Slots = Slots(
    roundedArea: Option<real>,
    lineLengthKm: Option<real>,
    lineLengthMiles: Option<real>,
    points: Option<seq<PlacedPoint>>)

  /** Runtime errors the as-written component can hit. */
  datatype Fault =
    | NotIterable    // `[...prevPoints, newPoint]` with `prevPoints` null
    | NotDefined     // `setLineLength` is not declared anywhere
    | NullLength     // `points.length` with `points` null, while rendering

  /**
   * What an event does besides the slots: the shape passed to `onShapeDrawn`, whether
   * the `Click the map to draw a shape.` alert is raised, and a runtime error, if any.
   */
  datatype Effect = Effect(reported: Option<DrawnFeature>, alerted: bool, fault: Option<Fault>)

  datatype Transition = Transition(after: Slots, effect: Effect)

  /** The `useState` initial values. */
  const InitialSlots := Slots(None, None, None, Some([]))

  function NewPoint(shape: DrawnFeature): PlacedPoint
  {
    PlacedPoint(shape.id, shape.coordinates)
  }

  // ---------------------------------------------------------------------------
  // updateShape as written
  // ---------------------------------------------------------------------------

  /**
   * The handler as written. The alert on an empty collection is never raised: the
   * undefined `setLineLength` throws first.
   */
  function Step(s: Slots, e: EventType, features: seq<DrawnFeature>, measure: Measure): (r: Transition)
    ensures !r.effect.alerted
  {
    if |features| > 0 then
      var shape := features[0];
      var t := shape.geometryType;
      if t == "Polygon" then
        Transition(Slots(Some(measure(shape).areaKm), None, None, None), Effect(Some(shape), false, None))
      else if t == "LineString" then
        var m := measure(shape);
        Transition(Slots(None, Some(m.lengthKm), Some(m.lengthMiles), None), Effect(Some(shape), false, None))
      else if t == "Point" then
        match s.points
        case Some(prev) =>
          Transition(Slots(None, None, None, Some(prev + [NewPoint(shape)])), Effect(Some(shape), false, None))
        case None =>
          Transition(Slots(None, None, None, None), Effect(Some(shape), false, Some(NotIterable)))
      else
        Transition(s, Effect(Some(shape), false, None))
    else
      // `setRoundedArea(null)` runs, then `setLineLength(null)` throws before the alert
      Transition(s.(roundedArea := None), Effect(None, false, Some(NotDefined)))
  }

  /** Only `features[0]` is inspected: the rest of the collection never matters. */
  lemma OnlyFirstFeatureMatters(s: Slots, e: EventType, f1: seq<DrawnFeature>, f2: seq<DrawnFeature>, measure: Measure)
    requires |f1| > 0 && |f2| > 0 && f1[0] == f2[0]
    ensures Step(s, e, f1, measure) == Step(s, e, f2, measure)
    ensures CorrectedStep(s, e, f1, measure) == CorrectedStep(s, e, f2, measure)
  {
  }

  /** A Polygon sets the area, clears both line slots and sets `points` to null. */
  lemma PolygonCommit(s: Slots, e: EventType, features: seq<DrawnFeature>, measure: Measure)
    requires |features| > 0 && features[0].geometryType == "Polygon"
    ensures var t := Step(s, e, features, measure);
      && t.after.roundedArea == Some(measure(features[0]).areaKm)
      && t.after.lineLengthKm.None? && t.after.lineLengthMiles.None?
      && t.after.points.None?
      && t.effect == Effect(Some(features[0]), false, None)
  {
  }

  /** A LineString sets both line slots, clears the area and sets `points` to null. */
  lemma LineStringCommit(s: Slots, e: EventType, features: seq<DrawnFeature>, measure: Measure)
    requires |features| > 0 && features[0].geometryType == "LineString"
    ensures var t := Step(s, e, features, measure);
      && t.after.lineLengthKm == Some(measure(features[0]).lengthKm)
      && t.after.lineLengthMiles == Some(measure(features[0]).lengthMiles)
      && t.after.roundedArea.None?
      && t.after.points.None?
      && t.effect == Effect(Some(features[0]), false, None)
  {
  }

  /**
   * A Point appends exactly one entry at the end of `points`, keeps the earlier
   * entries, and clears the area and both line slots; with `points` null the append
   * throws instead.
   */
  lemma PointCommit(s: Slots, e: EventType, features: seq<DrawnFeature>, measure: Measure)
    requires |features| > 0 && features[0].geometryType == "Point"
    ensures var t := Step(s, e, features, measure);
      && t.after.roundedArea.None? && t.after.lineLengthKm.None? && t.after.lineLengthMiles.None?
      && t.effect.reported == Some(features[0]) && !t.effect.alerted
      && (s.points.Some? ==>
            && t.effect.fault.None?
            && t.after.points.Some?
            && |t.after.points.value| == |s.points.value| + 1
            && t.after.points.value[..|s.points.value|] == s.points.value
            && t.after.points.value[|s.points.value|] == PlacedPoint(features[0].id, features[0].coordinates))
      && (s.points.None? ==> t.effect.fault == Some(NotIterable))
  {
    if s.points.Some? {
      var prev := s.points.value;
      assert (prev + [NewPoint(features[0])])[..|prev|] == prev;
    }
  }

  /** Any other geometry type leaves all four slots alone, but the shape is still reported. */
  lemma OtherGeometryLeavesSlots(s: Slots, e: EventType, features: seq<DrawnFeature>, measure: Measure)
    requires |features| > 0
    requires features[0].geometryType !in {"Polygon", "LineString", "Point"}
    ensures Step(s, e, features, measure) == Transition(s, Effect(Some(features[0]), false, None))
  {
  }

  /** A non-empty collection reports `features[0]` exactly once and never alerts. */
  lemma NonEmptyCommitReportsFirst(s: Slots, e: EventType, features: seq<DrawnFeature>, measure: Measure)
    requires |features| > 0
    ensures Step(s, e, features, measure).effect.reported == Some(features[0])
    ensures !Step(s, e, features, measure).effect.alerted
  {
  }

  /**
   * As written, an empty collection clears only the area: `setLineLength` is not
   * defined, so the line slots keep their values and the alert is never raised.
   */
  lemma EmptyCommitKeepsLineSlots(s: Slots, e: EventType, measure: Measure)
    ensures var t := Step(s, e, [], measure);
      && t.after == Slots(None, s.lineLengthKm, s.lineLengthMiles, s.points)
      && t.effect.reported.None?
      && !t.effect.alerted
      && t.effect.fault == Some(NotDefined)
  {
  }

  /**
   * Drawing a line and then deleting it leaves the kilometres and miles in the state
   * (the panel itself no longer renders after the line: see `RenderFailsAfterPolygonOrLine`).
   */
  lemma DeletedLineKeptInState(l: DrawnFeature, measure: Measure)
    requires l.geometryType == "LineString"
    ensures var s := Step(Step(InitialSlots, DrawCreate, [l], measure).after, DrawDelete, [], measure).after;
      s.lineLengthKm == Some(measure(l).lengthKm) && s.lineLengthMiles == Some(measure(l).lengthMiles)
  {
  }

  /**
   * Placing a Point and then deleting it, from the initial state, reaches the undefined
   * `setLineLength`: the area is cleared, the point list is kept, and the handler throws.
   */
  lemma DeletedPointThrows(p: DrawnFeature, measure: Measure)
    requires p.geometryType == "Point"
    ensures var first := Step(InitialSlots, DrawCreate, [p], measure);
      var t := Step(first.after, DrawDelete, [], measure);
      && first.effect.fault.None?
      && t.after == Slots(None, None, None, Some([NewPoint(p)]))
      && t.effect.fault == Some(NotDefined)
      && Render(t.after).Success?
  {
    assert [] + [NewPoint(p)] == [NewPoint(p)];
  }

  // ---------------------------------------------------------------------------
  // measurement categories and the rendered panel
  // ---------------------------------------------------------------------------

  /** How many of the three measurement categories (area, line length, points) hold a value. */
  function Categories(s: Slots): nat
  {
    (if s.roundedArea.Some? then 1 else 0)
    + (if s.lineLengthKm.Some? || s.lineLengthMiles.Some? then 1 else 0)
    + (if s.points.Some? && |s.points.value| > 0 then 1 else 0)
  }

  /** After a Polygon, LineString or Point commit at most one category holds a value. */
  lemma CommittedShapeIsExclusive(s: Slots, e: EventType, features: seq<DrawnFeature>, measure: Measure)
    requires |features| > 0 && features[0].geometryType in {"Polygon", "LineString", "Point"}
    ensures Categories(Step(s, e, features, measure).after) <= 1
    ensures Categories(CorrectedStep(s, e, features, measure).after) <= 1
  {
  }

  /** The calculation box: the sections it shows, and the first placed point. */
  datatype Panel = Panel(area: Option<real>, lengthKm: Option<real>, lengthMiles: Option<real>, firstPoint: Option<PlacedPoint>)

  /** The calculation box's JSX: `points.length` throws when `points` is null. */
  function Render(s: Slots): (r: Result<Panel, Fault>)
    ensures r.Failure? <==> s.points.None?
    ensures r.Success? ==>
      && r.value.area == s.roundedArea
      && r.value.lengthKm == s.lineLengthKm
      && r.value.lengthMiles == (if s.lineLengthKm.Some? then s.lineLengthMiles else None)
      && (r.value.firstPoint.Some? <==> |s.points.value| > 0)
      && (r.value.firstPoint.Some? ==> r.value.firstPoint.value == s.points.value[0])
  {
    match s.points
    case None => Failure(NullLength)
    case Some(ps) =>
      Success(Panel(
        s.roundedArea,
        s.lineLengthKm,
        if s.lineLengthKm.Some? then s.lineLengthMiles else None,
        if |ps| > 0 then Some(ps[0]) else None))
  }

  /** The number of sections the calculation box shows. */
  function Sections(p: Panel): nat
  {
    (if p.area.Some? then 1 else 0) + (if p.lengthKm.Some? then 1 else 0) + (if p.firstPoint.Some? then 1 else 0)
  }

  /** As written, the render after any Polygon or LineString commit throws. */
  lemma RenderFailsAfterPolygonOrLine(s: Slots, e: EventType, features: seq<DrawnFeature>, measure: Measure)
    requires |features| > 0 && features[0].geometryType in {"Polygon", "LineString"}
    ensures Render(Step(s, e, features, measure).after) == Failure(NullLength)
  {
  }

  // ---------------------------------------------------------------------------
  // updateShape as evidently intended
  // ---------------------------------------------------------------------------

  /**
   * `setPoints([])` instead of `setPoints(null)` for Polygon and LineString, and both
   * line slots cleared (`setLineLengthKm(null)`, `setLineLengthMiles(null)`) on an
   * empty collection, followed by the alert unless the event is a deletion.
   */
  function CorrectedStep(s: Slots, e: EventType, features: seq<DrawnFeature>, measure: Measure): (r: Transition)
    ensures r.effect.alerted <==> |features| == 0 && e != DrawDelete
  {
    if |features| > 0 then
      var shape := features[0];
      var t := shape.geometryType;
      if t == "Polygon" then
        Transition(Slots(Some(measure(shape).areaKm), None, None, Some([])), Effect(Some(shape), false, None))
      else if t == "LineString" then
        var m := measure(shape);
        Transition(Slots(None, Some(m.lengthKm), Some(m.lengthMiles), Some([])), Effect(Some(shape), false, None))
      else
        Step(s, e, features, measure)
    else
      Transition(Slots(None, None, None, s.points), Effect(None, e != DrawDelete, None))
  }

  /**
   * On an empty collection the corrected handler clears the area and both line slots, keeps
   * the point list, and alerts iff the event is not a deletion.
   */
  lemma CorrectedEmptyCommit(s: Slots, e: EventType, measure: Measure)
    ensures var t := CorrectedStep(s, e, [], measure);
      && t.after == Slots(None, None, None, s.points)
      && t.effect.reported.None?
      && (t.effect.alerted <==> e != DrawDelete)
      && t.effect.fault.None?
  {
  }

  /** A Polygon after Points empties the list, and the panel then shows only the area. */
  lemma CorrectedPolygonAfterPoints(s: Slots, e: EventType, features: seq<DrawnFeature>, measure: Measure)
    requires s.points.Some? && |s.points.value| > 0
    requires |features| > 0 && features[0].geometryType == "Polygon"
    ensures var after := CorrectedStep(s, e, features, measure).after;
      after.points == Some([]) &&
      Render(after) == Success(Panel(Some(measure(features[0]).areaKm), None, None, None))
  {
  }

  /** One corrected step keeps `points` non-null and never faults. */
  lemma CorrectedStepKeepsPoints(s: Slots, e: EventType, features: seq<DrawnFeature>, measure: Measure)
    requires s.points.Some?
    ensures CorrectedStep(s, e, features, measure).after.points.Some?
    ensures CorrectedStep(s, e, features, measure).effect.fault.None?
  {
  }

  /** One draw event: its type and the features the drawing tool holds afterwards. */
  datatype DrawCall = DrawCall(event: EventType, features: seq<DrawnFeature>)

  /** The slots after a sequence of corrected draw events. */
  function CorrectedRun(s: Slots, calls: seq<DrawCall>, measure: Measure): Slots
    decreases |calls|
  {
    if |calls| == 0 then s
    else CorrectedRun(CorrectedStep(s, calls[0].event, calls[0].features, measure).after, calls[1..], measure)
  }

  /** No step of a corrected run raises a runtime error. */
  predicate FaultFree(s: Slots, calls: seq<DrawCall>, measure: Measure)
    decreases |calls|
  {
    |calls| == 0 ||
    (var t := CorrectedStep(s, calls[0].event, calls[0].features, measure);
     t.effect.fault.None? && FaultFree(t.after, calls[1..], measure))
  }

  /**
   * From any state with a point list (the initial state among them), every sequence of
   * corrected events runs without a runtime error and the panel then renders.
   */
  lemma {:induction false} CorrectedRunRenders(s: Slots, calls: seq<DrawCall>, measure: Measure)
    requires s.points.Some?
    ensures FaultFree(s, calls, measure)
    ensures Render(CorrectedRun(s, calls, measure)).Success?
    decreases |calls|
  {
    if |calls| > 0 {
      CorrectedStepKeepsPoints(s, calls[0].event, calls[0].features, measure);
      CorrectedRunRenders(CorrectedStep(s, calls[0].event, calls[0].features, measure).after, calls[1..], measure);
    }
  }

  lemma CorrectedPanelShowsOneSection(s: Slots, e: EventType, features: seq<DrawnFeature>, measure: Measure)
    requires s.points.Some?
    requires |features| > 0 && features[0].geometryType in {"Polygon", "LineString", "Point"}
    ensures var r := Render(CorrectedStep(s, e, features, measure).after);
      r.Success? && Sections(r.value) == 1
  {
  }

  // ---------------------------------------------------------------------------
  // dataset sources and layers
  // ---------------------------------------------------------------------------

  datatype LayerType = Line | Fill

  /** `map.addSource(id, { type: 'geojson', data })`. */
  datatype Source = Source(id: string, data: Json)

  /** `map.addLayer({ id, type, source })`; paint properties are not modelled. */
  datatype Layer = Layer(id: string, kind: LayerType, source: string)

  /** Successive member reads `v.k0.k1...`, failing at the first `null`/`undefined`. */
  function ReadPath(v: Option<Json>, keys: seq<string>): (r: Result<Option<Json>, TypeError>)
    ensures |keys| > 0 && (v.None? || v == Some(JNull)) ==> r.Failure?
    decreases |keys|
  {
    if |keys| == 0 then Success(v)
    else
      match Member(v, keys[0])
      case Failure(err) => Failure(err)
      case Success(next) => ReadPath(next, keys[1..])
  }

  /** The member path of `features[0].geometry.type`. */
  const GeometryTypePath: seq<string> := ["features", "0", "geometry", "type"]

  /** `dataset.data.features[0].geometry.type === 'LineString'` chooses a line layer, anything else a fill layer. */
  function LayerTypeOf(data: Json): (r: Result<LayerType, TypeError>)
    // `null`, a boolean or a number has no `features`, so the read of its first feature throws
    ensures !(data.JObject? || data.JArray? || data.JString?) ==> r.Failure?
  {
    match ReadPath(Some(data), GeometryTypePath)
    case Failure(err) => Failure(err)
    case Success(t) => Success(if t == Some(JString("LineString")) then Line else Fill)
  }

  /**
   * For a collection whose first feature has an object geometry, the layer is a line
   * exactly when that geometry's `type` is `LineString`.
   */
  lemma LayerTypeOfCollection(data: Json, items: seq<Json>, feature: map<string, Json>, geometry: map<string, Json>)
    requires data.JObject? && "features" in data.fields && data.fields["features"] == JArray(items)
    requires |items| > 0 && items[0] == JObject(feature)
    requires "geometry" in feature && feature["geometry"] == JObject(geometry)
    ensures LayerTypeOf(data) ==
      Success(if "type" in geometry && geometry["type"] == JString("LineString") then Line else Fill)
  {
    assert Text.NumberToString(Text.ParseDigits("0")) == "0";
    assert Text.CanonicalIndex("0") == Some(0);
    assert !Text.AllDigits("features") by { assert !Text.IsDigit("features"[0]); }
  }

  /** Data without a `features` member, or `null` data, gives no layer. */
  lemma LayerTypeOfNonCollection(data: Json)
    requires data == JNull || (data.JObject? && "features" !in data.fields)
    ensures LayerTypeOf(data).Failure?
  {
    if data.JObject? {
      assert !Text.AllDigits("features") by { assert !Text.IsDigit("features"[0]); }
    }
  }

  /**
   * The read a `load` callback performs on its dataset's data before choosing a layer;
   * the component's callbacks all perform `LayerTypeOf`.
   */
  type TypeRead = Json -> Result<LayerType, TypeError>

  /**
   * The number of `load` callbacks that finish: the `load` event calls its listeners in
   * registration order without catching, so the first callback whose read throws ends
   * the dispatch.
   */
  function Completed(ds: seq<Dataset>, read: TypeRead): (n: nat)
    ensures n <= |ds|
    decreases |ds|
  {
    if |ds| == 0 then 0
    else if read(ds[0].data).Failure? then 0
    else 1 + Completed(ds[1..], read)
  }

  /** Every callback before the `Completed` count finishes, and the one at the count throws. */
  lemma {:induction false} CompletedStopsAtFirstFailure(ds: seq<Dataset>, read: TypeRead)
    ensures forall i :: 0 <= i < Completed(ds, read) ==> read(ds[i].data).Success?
    ensures Completed(ds, read) < |ds| ==> read(ds[Completed(ds, read)].data).Failure?
    decreases |ds|
  {
    if |ds| > 0 && read(ds[0].data).Success? {
      CompletedStopsAtFirstFailure(ds[1..], read);
      forall i | 0 <= i < Completed(ds, read)
        ensures read(ds[i].data).Success?
      {
        if i > 0 {
          assert ds[i] == ds[1..][i - 1];
        }
      }
      if Completed(ds, read) < |ds| {
        assert ds[Completed(ds, read)] == ds[1..][Completed(ds[1..], read)];
      }
    }
  }

  /** The sources the `load` callbacks add, in order; the callback that throws has already added its own. */
  function SourcesFor(ds: seq<Dataset>, read: TypeRead): seq<Source>
    decreases |ds|
  {
    if |ds| == 0 then []
    else if read(ds[0].data).Failure? then [Source(ds[0].id, ds[0].data)]
    else [Source(ds[0].id, ds[0].data)] + SourcesFor(ds[1..], read)
  }

  /**
   * One source per callback that runs, the finishing ones and the one that throws,
   * each with its dataset's id and data.
   */
  lemma {:induction false} SourcesForSpec(ds: seq<Dataset>, read: TypeRead)
    ensures var r := SourcesFor(ds, read);
      && |r| == (if Completed(ds, read) < |ds| then Completed(ds, read) + 1 else |ds|)
      && forall i :: 0 <= i < |r| ==> r[i] == Source(ds[i].id, ds[i].data)
    decreases |ds|
  {
    if |ds| > 0 && read(ds[0].data).Success? {
      SourcesForSpec(ds[1..], read);
      var r := SourcesFor(ds, read);
      forall i | 0 <= i < |r|
        ensures r[i] == Source(ds[i].id, ds[i].data)
      {
        if i > 0 {
          assert ds[i] == ds[1..][i - 1];
        }
      }
    }
  }

  /** The layers the `load` callbacks add, in order. */
  function LayersFor(ds: seq<Dataset>, read: TypeRead): seq<Layer>
    decreases |ds|
  {
    if |ds| == 0 then []
    else
      match read(ds[0].data)
      case Success(k) => [Layer(ds[0].id, k, ds[0].id)] + LayersFor(ds[1..], read)
      case Failure(_) => []
  }

  /** One layer per callback that finishes, with its dataset's id and the type its read selects. */
  lemma {:induction false} LayersForSpec(ds: seq<Dataset>, read: TypeRead)
    ensures var r := LayersFor(ds, read);
      && |r| == Completed(ds, read)
      && forall i :: 0 <= i < |r| ==>
        read(ds[i].data).Success? && r[i] == Layer(ds[i].id, read(ds[i].data).value, ds[i].id)
    decreases |ds|
  {
    if |ds| > 0 && read(ds[0].data).Success? {
      LayersForSpec(ds[1..], read);
      var r := LayersFor(ds, read);
      forall i | 0 <= i < |r|
        ensures read(ds[i].data).Success? && r[i] == Layer(ds[i].id, read(ds[i].data).value, ds[i].id)
      {
        if i > 0 {
          assert ds[i] == ds[1..][i - 1];
        }
      }
    }
  }

  /** The error that escapes the `load` dispatch. */
  function LoadError(ds: seq<Dataset>, read: TypeRead): Option<TypeError>
    decreases |ds|
  {
    if |ds| == 0 then None
    else
      match read(ds[0].data)
      case Failure(err) => Some(err)
      case Success(_) => LoadError(ds[1..], read)
  }

  /** An error escapes exactly when some callback throws, and it is that of the first one to throw. */
  lemma {:induction false} LoadErrorSpec(ds: seq<Dataset>, read: TypeRead)
    ensures LoadError(ds, read).Some? <==> Completed(ds, read) < |ds|
    ensures LoadError(ds, read).Some? ==> read(ds[Completed(ds, read)].data) == Failure(LoadError(ds, read).value)
    decreases |ds|
  {
    if |ds| > 0 && read(ds[0].data).Success? {
      LoadErrorSpec(ds[1..], read);
      if Completed(ds, read) < |ds| {
        assert ds[Completed(ds, read)] == ds[1..][Completed(ds[1..], read)];
      }
    }
  }

  // ---------------------------------------------------------------------------
  // the component
  // ---------------------------------------------------------------------------

  /** The `Map` component: its four state slots and the sources and layers of its map. */
  class MapComponent {
    var roundedArea: Option<real>
    var lineLengthKm: Option<real>
    var lineLengthMiles: Option<real>
    var points: Option<seq<PlacedPoint>>
    var sources: seq<Source>
    var layers: seq<Layer>

    function SlotValues(): Slots
      reads this
    {
      Slots(roundedArea, lineLengthKm, lineLengthMiles, points)
    }

    constructor ()
      ensures SlotValues() == InitialSlots
      ensures sources == [] && layers == []
    {
      roundedArea, lineLengthKm, lineLengthMiles, points := None, None, None, Some([]);
      sources, layers := [], [];
    }

    /** `updateShape(e)`, with `features` the result of `draw.getAll().features`. */
    method UpdateShape(e: EventType, features: seq<DrawnFeature>, measure: Measure) returns (effect: Effect)
      modifies this
      ensures SlotValues() == Step(old(SlotValues()), e, features, measure).after
      ensures effect == Step(old(SlotValues()), e, features, measure).effect
      ensures sources == old(sources) && layers == old(layers)
    {
      if |features| > 0 {
        var shape := features[0];
        var shapeType := shape.geometryType;
        var fault: Option<Fault> := None;
        if shapeType == "Polygon" {
          roundedArea := Some(measure(shape).areaKm);
          lineLengthKm := None;
          lineLengthMiles := None;
          points := None;
        } else if shapeType == "LineString" {
          var m := measure(shape);
          lineLengthKm := Some(m.lengthKm);
          lineLengthMiles := Some(m.lengthMiles);
          roundedArea := None;
          points := None;
        } else if shapeType == "Point" {
          var newPoint := NewPoint(shape);
          match points {
            case Some(prev) => points := Some(prev + [newPoint]);
            case None => fault := Some(NotIterable);
          }
          roundedArea := None;
          lineLengthKm := None;
          lineLengthMiles := None;
        }
        effect := Effect(Some(shape), false, fault);
      } else {
        roundedArea := None;
        effect := Effect(None, false, Some(NotDefined));
      }
    }

    /**
     * One `load` callback: add the dataset's source, then perform `read` on its data
     * (the geometry type of its first feature) and add a line or fill layer; `thrown`
     * is the error of that read.
     */
    method LoadCallback(dataset: Dataset, read: TypeRead) returns (thrown: Option<TypeError>)
      modifies this
      ensures sources == old(sources) + [Source(dataset.id, dataset.data)]
      ensures read(dataset.data).Success? ==>
        thrown.None? && layers == old(layers) + [Layer(dataset.id, read(dataset.data).value, dataset.id)]
      ensures read(dataset.data).Failure? ==>
        thrown == Some(read(dataset.data).error) && layers == old(layers)
      ensures SlotValues() == old(SlotValues())
    {
      sources := sources + [Source(dataset.id, dataset.data)];
      match read(dataset.data) {
        case Failure(err) =>
          thrown := Some(err);
        case Success(kind) =>
          layers := layers + [Layer(dataset.id, kind, dataset.id)];
          thrown := None;
      }
    }

    /**
     * The `load` listeners, one per dataset, each performing `read`, run in order until
     * one throws; `thrown` is the error that escapes the dispatch.
     */
    method Dispatch(datasets: seq<Dataset>, read: TypeRead) returns (thrown: Option<TypeError>)
      modifies this
      ensures sources == old(sources) + SourcesFor(datasets, read)
      ensures layers == old(layers) + LayersFor(datasets, read)
      ensures thrown == LoadError(datasets, read)
      ensures SlotValues() == old(SlotValues())
    {
      var i := 0;
      while i < |datasets|
        invariant i <= |datasets|
        invariant old(sources) + SourcesFor(datasets, read) == sources + SourcesFor(datasets[i..], read)
        invariant old(layers) + LayersFor(datasets, read) == layers + LayersFor(datasets[i..], read)
        invariant LoadError(datasets, read) == LoadError(datasets[i..], read)
        invariant SlotValues() == old(SlotValues())
      {
        ghost var rest := datasets[i..];
        assert rest[0] == datasets[i] && rest[1..] == datasets[i + 1..];
        thrown := LoadCallback(datasets[i], read);
        if thrown.Some? {
          return;
        }
        i := i + 1;
      }
      return None;
    }

    /** The callbacks `datasets.forEach` registers: each reads `features[0].geometry.type`. */
    method RegisterDatasets(datasets: seq<Dataset>) returns (thrown: Option<TypeError>)
      modifies this
      ensures sources == old(sources) + SourcesFor(datasets, LayerTypeOf)
      ensures layers == old(layers) + LayersFor(datasets, LayerTypeOf)
      ensures thrown == LoadError(datasets, LayerTypeOf)
      ensures SlotValues() == old(SlotValues())
    {
      thrown := Dispatch(datasets, LayerTypeOf);
    }
  }
}
