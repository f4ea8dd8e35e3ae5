/** The marker array of a zones document: which segments are drawn, in which order, under which ids. */
module ZoneMarkerArray {
  import opened Outcomes
  import opened Json
  import opened SafetyZoneMarkers

  // ----- Outlines of the other segment types -----

  predicate IsVertex(v: Json) {
    v.Array? && |v.elements| >= 2
  }

  function VertexPoint(t: Trig, v: Json, offset: real): Result<Point, TypeError>
    requires IsVertex(v)
  {
    var x :- GetReal(v.elements[0]);
    var y :- GetReal(v.elements[1]);
    Ok(MakePoint(t, x, y, offset))
  }

  /** The points of the well-formed vertices, in order; the others are skipped. */
  function Path(t: Trig, vertices: seq<Json>, offset: real): Result<seq<Point>, TypeError> {
    if vertices == [] then Ok([])
    else
      var before :- Path(t, vertices[..|vertices| - 1], offset);
      var last := vertices[|vertices| - 1];
      if IsVertex(last) then
        var p :- VertexPoint(t, last, offset);
        Ok(before + [p])
      else Ok(before)
  }

  predicate HasVertices(segment: Object) {
    VERTICES in segment && segment[VERTICES].Array?
  }

  function PolygonOutline(t: Trig, segment: Object, offset: real): Result<seq<Point>, TypeError> {
    if !HasVertices(segment) then Ok([])
    else
      var path :- Path(t, segment[VERTICES].elements, offset);
      Ok(if path == [] then [] else path + [path[0]])
  }

  function TwoPointOutline(t: Trig, segment: Object, offset: real): Result<seq<Point>, TypeError> {
    if !HasVertices(segment) || |segment[VERTICES].elements| != 2 then Ok([])
    else
      var v, w := segment[VERTICES].elements[0], segment[VERTICES].elements[1];
      if !IsVertex(v) then Ok([])
      else
        var p :- VertexPoint(t, v, offset);
        if !IsVertex(w) then Ok([])
        else
          var q :- VertexPoint(t, w, offset);
          Ok([p, q])
  }

  /** There is one error only. */
  lemma {:induction false} OneError<T>(r: Result<T, TypeError>)
    requires r.Err?
    ensures r == Err(TypeError)
  {
    match r.error
    case TypeError =>
  }

  /** An error in a prefix of the vertices is an error of the whole. */
  lemma {:induction false} PathError(t: Trig, vertices: seq<Json>, offset: real, i: nat)
    requires i <= |vertices| && Path(t, vertices[..i], offset).Err?
    ensures Path(t, vertices, offset) == Err(TypeError)
  {
    OneError(Path(t, vertices[..i], offset));
    if i == |vertices| {
      assert vertices[..i] == vertices;
    } else {
      assert vertices[..|vertices| - 1][..i] == vertices[..i];
      PathError(t, vertices[..|vertices| - 1], offset, i);
    }
  }

  method AppendPolygonPoints(t: Trig, segment: Object, offset: real) returns (r: Result<seq<Point>, TypeError>)
    ensures r == PolygonOutline(t, segment, offset)
  {
    var points: seq<Point> := [];
    if !HasVertices(segment) {
      return Ok(points);
    }
    var vertices := segment[VERTICES].elements;
    var i := 0;
    while i < |vertices|
      invariant 0 <= i <= |vertices|
      invariant Path(t, vertices[..i], offset) == Ok(points)
    {
      var vertex := vertices[i];
      assert vertices[..i + 1][..i] == vertices[..i];
      if IsVertex(vertex) {
        var p := VertexPoint(t, vertex, offset);
        if p.Err? {
          assert vertices[..i + 1][i] == vertex;
          PathError(t, vertices, offset, i + 1);
          return Err(TypeError);
        }
        points := points + [p.value];
      }
      i := i + 1;
    }
    assert vertices[..i] == vertices;
    if points != [] {
      points := points + [points[0]];
    }
    return Ok(points);
  }

  method AppendTwoPointSegment(t: Trig, segment: Object, offset: real) returns (r: Result<seq<Point>, TypeError>)
    ensures r == TwoPointOutline(t, segment, offset)
  {
    var points: seq<Point> := [];
    if !HasVertices(segment) || |segment[VERTICES].elements| != 2 {
      return Ok(points);
    }
    var vertices := segment[VERTICES].elements;
    var i := 0;
    while i < 2
      invariant 0 <= i <= 2 && |points| == i
      invariant forall j :: 0 <= j < i ==> IsVertex(vertices[j]) && VertexPoint(t, vertices[j], offset) == Ok(points[j])
    {
      if !IsVertex(vertices[i]) {
        points := [];
        return Ok(points);
      }
      var p :- VertexPoint(t, vertices[i], offset);
      points := points + [p];
      i := i + 1;
    }
    assert points == [points[0], points[1]];
    return Ok(points);
  }

  function SegmentOutline(t: Trig, segment: Object, offset: real): Result<seq<Point>, TypeError> {
    var kind :- StringOr(segment, TYPE, "");
    if kind == SECTOR then
      var s :- ReadSector(segment);
      Ok(SectorOutline(t, s.0, s.1, s.2, offset))
    else if kind == POLYGON then PolygonOutline(t, segment, offset)
    else if kind == TWO_POINTS then TwoPointOutline(t, segment, offset)
    else Ok([])
  }

  method AppendSegmentPoints(t: Trig, segment: Object, offset: real) returns (r: Result<seq<Point>, TypeError>)
    ensures r == SegmentOutline(t, segment, offset)
  {
    var kind :- StringOr(segment, TYPE, "");
    if kind == SECTOR {
      r := AppendSectorPoints(t, segment, offset, []);
      if r.Ok? {
        var sector := ReadSector(segment).value;
        var outline := SectorOutline(t, sector.0, sector.1, sector.2, offset);
        assert [] + outline == outline;
      }
    } else if kind == POLYGON {
      r := AppendPolygonPoints(t, segment, offset);
    } else if kind == TWO_POINTS {
      r := AppendTwoPointSegment(t, segment, offset);
    } else {
      r := Ok([]);
    }
  }

  /** A polygon with any point is closed, and a two-point segment has both its points or none. */
  lemma {:induction false} OutlineShapes(t: Trig, segment: Object, offset: real)
    ensures var ps := PolygonOutline(t, segment, offset);
            ps.Ok? && ps.value != [] ==> |ps.value| >= 2 && ps.value[0] == ps.value[|ps.value| - 1]
    ensures var ps := TwoPointOutline(t, segment, offset);
            ps.Ok? ==> ps.value == [] || |ps.value| == 2
  {
  }

  // ----- The array, told from the list of drawable segments -----

  /** What decides the colour. */
  datatype Style = Style(enabled: bool, statusKnown: bool, triggered: bool)

  datatype Marker = DeleteAll | LineStrip(id: int, style: Style, points: seq<Point>)

  /** A segment object together with the style of its zone. */
  datatype Item = Item(style: Style, segment: Object)

  predicate IsZone(zone: Json) {
    zone.Object? && SEGMENTS in zone.fields && zone.fields[SEGMENTS].Array?
  }

  function ZoneStyle(zone: Object, status: Json): Result<Style, TypeError> {
    var name :- StringOr(zone, NAME, DEFAULT_NAME);
    var enabled :- BoolOr(zone, ENABLED, true);
    var known := status.Object? && name in status.fields && status.fields[name].Boolean?;
    Ok(Style(enabled, known, known && status.fields[name].b))
  }

  /** The object segments of a zone, in order. */
  function ItemsOf(style: Style, segments: seq<Json>): (items: seq<Item>)
    ensures |items| <= |segments|
  {
    if segments == [] then []
    else
      var last := segments[|segments| - 1];
      ItemsOf(style, segments[..|segments| - 1]) + if last.Object? then [Item(style, last.fields)] else []
  }

  function ZoneItems(zone: Json, status: Json): Result<seq<Item>, TypeError> {
    if !IsZone(zone) then Ok([])
    else
      var style :- ZoneStyle(zone.fields, status);
      Ok(ItemsOf(style, zone.fields[SEGMENTS].elements))
  }

  /** The object segments of all valid zones, in document order. */
  function AllItems(zones: seq<Json>, status: Json): Result<seq<Item>, TypeError> {
    if zones == [] then Ok([])
    else
      var before :- AllItems(zones[..|zones| - 1], status);
      var items :- ZoneItems(zones[|zones| - 1], status);
      Ok(before + items)
  }

  /** Number the items from 1 and draw those with at least two points. */
  function Drawn(t: Trig, items: seq<Item>, offset: real): Result<seq<Marker>, TypeError> {
    if items == [] then Ok([])
    else
      var before :- Drawn(t, items[..|items| - 1], offset);
      var last := items[|items| - 1];
      var points :- SegmentOutline(t, last.segment, offset);
      Ok(before + if |points| >= 2 then [LineStrip(|items|, last.style, points)] else [])
  }

  predicate HasZones(zones: Json) {
    zones.Object? && ZONES in zones.fields && zones.fields[ZONES].Array?
  }

  function MarkerArray(t: Trig, zones: Json, status: Json, offset: real): Result<seq<Marker>, TypeError> {
    if !HasZones(zones) then Ok([DeleteAll])
    else
      var items :- AllItems(zones.fields[ZONES].elements, status);
      var drawn :- Drawn(t, items, offset);
      Ok([DeleteAll] + drawn)
  }

  lemma {:induction false} DrawnError(t: Trig, items: seq<Item>, more: seq<Item>, offset: real)
    requires Drawn(t, items, offset).Err?
    ensures Drawn(t, items + more, offset).Err?
  {
    if more == [] {
      assert items + more == items;
    } else {
      assert (items + more)[..|items + more| - 1] == items + more[..|more| - 1];
      DrawnError(t, items, more[..|more| - 1], offset);
    }
  }

  lemma {:induction false} ItemsOfPrefix(style: Style, segments: seq<Json>, j: nat)
    requires j <= |segments|
    ensures ItemsOf(style, segments[..j]) <= ItemsOf(style, segments)
  {
    if j == |segments| {
      assert segments[..j] == segments;
    } else {
      assert segments[..|segments| - 1][..j] == segments[..j];
      ItemsOfPrefix(style, segments[..|segments| - 1], j);
    }
  }

  lemma {:induction false} AllItemsPrefix(zones: seq<Json>, status: Json, i: nat)
    requires i <= |zones|
    ensures AllItems(zones[..i], status).Err? ==> AllItems(zones, status).Err?
    ensures AllItems(zones, status).Ok? ==> AllItems(zones[..i], status).value <= AllItems(zones, status).value
  {
    if i == |zones| {
      assert zones[..i] == zones;
    } else {
      assert zones[..|zones| - 1][..i] == zones[..i];
      AllItemsPrefix(zones[..|zones| - 1], status, i);
    }
  }

  /** One more item appends its marker, or its error ends the drawing. */
  lemma {:induction false} DrawnStep(t: Trig, items: seq<Item>, item: Item, offset: real)
    requires Drawn(t, items, offset).Ok?
    ensures var points := SegmentOutline(t, item.segment, offset);
            Drawn(t, items + [item], offset) ==
              match points {
                case Err(e) => Err(e)
                case Ok(ps) => Ok(Drawn(t, items, offset).value +
                                  if |ps| >= 2 then [LineStrip(|items| + 1, item.style, ps)] else [])
              }
  {
    var longer := items + [item];
    assert longer[..|longer| - 1] == items;
  }

  // ----- The nested loops -----

  /** What the loops hold once the given items are behind them. */
  ghost predicate Built(t: Trig, items: seq<Item>, offset: real, markers: seq<Marker>, markerId: int) {
    && Drawn(t, items, offset).Ok?
    && markers == [DeleteAll] + Drawn(t, items, offset).value
    && markerId == |items| + 1
  }

  /** One pass of the inner loop over a segment object. */
  lemma {:induction false} BuiltStep(t: Trig, items: seq<Item>, item: Item, offset: real, markers: seq<Marker>, id: int)
    requires Built(t, items, offset, markers, id)
    ensures var points := SegmentOutline(t, item.segment, offset);
            && (points.Err? ==> Drawn(t, items + [item], offset).Err?)
            && (points.Ok? && |points.value| >= 2 ==>
                  Built(t, items + [item], offset, markers + [LineStrip(id, item.style, points.value)], id + 1))
            && (points.Ok? && |points.value| < 2 ==> Built(t, items + [item], offset, markers, id + 1))
  {
    DrawnStep(t, items, item, offset);
    var drawn := Drawn(t, items, offset).value;
    assert drawn + [] == drawn;
  }

  /** The loop over the segments of one zone. */
  method AppendZone(
    t: Trig, style: Style, segments: seq<Json>, offset: real, markers0: seq<Marker>, markerId0: int,
    ghost before: seq<Item>)
    returns (r: Result<seq<Marker>, TypeError>, markerId: int)
    requires Built(t, before, offset, markers0, markerId0)
    ensures r.Ok? ==> Built(t, before + ItemsOf(style, segments), offset, r.value, markerId)
    ensures r.Err? ==> Drawn(t, before + ItemsOf(style, segments), offset).Err?
  {
    hide Built, SegmentOutline, Drawn;
    var markers := markers0;
    markerId := markerId0;
    var j := 0;
    assert before + ItemsOf(style, segments[..0]) == before;
    while j < |segments|
      invariant 0 <= j <= |segments|
      invariant Built(t, before + ItemsOf(style, segments[..j]), offset, markers, markerId)
    {
      var segment := segments[j];
      ghost var items := before + ItemsOf(style, segments[..j]);
      ItemsOfStep(before, style, segments, j);
      if segment.Object? {
        BuiltStep(t, items, Item(style, segment.fields), offset, markers, markerId);
        var id := markerId;
        markerId := markerId + 1;
        var points := AppendSegmentPoints(t, segment.fields, offset);
        if points.Err? {
          LaterError(t, before, style, segments, j + 1, offset);
          return Err(points.error), markerId;
        }
        if |points.value| >= 2 {
          markers := markers + [LineStrip(id, style, points.value)];
        }
      }
      j := j + 1;
    }
    assert segments[..j] == segments;
    r := Ok(markers);
  }

  lemma {:induction false} ItemsOfStep(before: seq<Item>, style: Style, segments: seq<Json>, j: nat)
    requires j < |segments|
    ensures before + ItemsOf(style, segments[..j + 1]) ==
            if segments[j].Object? then before + ItemsOf(style, segments[..j]) + [Item(style, segments[j].fields)]
            else before + ItemsOf(style, segments[..j])
  {
    assert segments[..j + 1][..j] == segments[..j];
  }

  lemma {:induction false} LaterError(
    t: Trig, before: seq<Item>, style: Style, segments: seq<Json>, j: nat, offset: real)
    requires j <= |segments| && Drawn(t, before + ItemsOf(style, segments[..j]), offset).Err?
    ensures Drawn(t, before + ItemsOf(style, segments), offset).Err?
  {
    ItemsOfPrefix(style, segments, j);
    var some, all := ItemsOf(style, segments[..j]), ItemsOf(style, segments);
    assert before + all == (before + some) + all[|some|..];
    DrawnError(t, before + some, all[|some|..], offset);
  }

  method BuildSafetyZoneMarkers(t: Trig, zones: Json, status: Json, offset: real)
    returns (r: Result<seq<Marker>, TypeError>)
    ensures r == MarkerArray(t, zones, status, offset)
  {
    var markers := [DeleteAll];
    if !HasZones(zones) {
      return Ok(markers);
    }
    var list := zones.fields[ZONES].elements;
    var markerId := 1;
    var i := 0;
    while i < |list|
      invariant 0 <= i <= |list|
      invariant AllItems(list[..i], status).Ok?
      invariant Built(t, AllItems(list[..i], status).value, offset, markers, markerId)
    {
      var zone := list[i];
      ghost var before := AllItems(list[..i], status).value;
      AllItemsStep(list, status, i);
      if IsZone(zone) {
        var style := ZoneStyle(zone.fields, status);
        if style.Err? {
          ArrayFails(t, zones, status, offset, i + 1);
          return Err(TypeError);
        }
        var segments := zone.fields[SEGMENTS].elements;
        var appended, next := AppendZone(t, style.value, segments, offset, markers, markerId, before);
        if appended.Err? {
          ArrayFails(t, zones, status, offset, i + 1);
          return Err(TypeError);
        }
        markers, markerId := appended.value, next;
      }
      i := i + 1;
    }
    assert list[..i] == list;
    return Ok(markers);
  }

  lemma {:induction false} AllItemsStep(list: seq<Json>, status: Json, i: nat)
    requires i < |list| && AllItems(list[..i], status).Ok?
    ensures AllItems(list[..i + 1], status) ==
            if !IsZone(list[i]) then AllItems(list[..i], status)
            else match ZoneStyle(list[i].fields, status) {
                case Err(e) => Err(e)
                case Ok(style) =>
                  Ok(AllItems(list[..i], status).value + ItemsOf(style, list[i].fields[SEGMENTS].elements))
              }
  {
    assert list[..i + 1][..i] == list[..i] && list[..i + 1][i] == list[i];
    var before := AllItems(list[..i], status).value;
    assert before + [] == before;
  }

  /** An error at any zone is the outcome of the whole. */
  lemma {:induction false} ArrayFails(t: Trig, zones: Json, status: Json, offset: real, i: nat)
    requires HasZones(zones) && i <= |zones.fields[ZONES].elements|
    requires var items := AllItems(zones.fields[ZONES].elements[..i], status);
             items.Ok? ==> Drawn(t, items.value, offset).Err?
    ensures MarkerArray(t, zones, status, offset) == Err(TypeError)
  {
    var list := zones.fields[ZONES].elements;
    AllItemsPrefix(list, status, i);
    var all := AllItems(list, status);
    if all.Ok? {
      var some := AllItems(list[..i], status).value;
      assert all.value == some + all.value[|some|..];
      DrawnError(t, some, all.value[|some|..], offset);
    }
    OneError(MarkerArray(t, zones, status, offset));
  }

  // ----- What the array says -----

  predicate Drawable(t: Trig, item: Item, offset: real) {
    var points := SegmentOutline(t, item.segment, offset);
    points.Ok? && |points.value| >= 2
  }

  /** A marker carries the outline and the style of the item its id names. */
  predicate Depicts(t: Trig, m: Marker, items: seq<Item>, offset: real) {
    && m.LineStrip?
    && 1 <= m.id <= |items|
    && |m.points| >= 2
    && m.style == items[m.id - 1].style
    && SegmentOutline(t, items[m.id - 1].segment, offset) == Ok(m.points)
  }

  ghost predicate AllDepict(t: Trig, items: seq<Item>, offset: real, ms: seq<Marker>) {
    && (forall k :: 0 <= k < |ms| ==> Depicts(t, ms[k], items, offset))
    && (forall j, k :: 0 <= j < k < |ms| ==> ms[j].id < ms[k].id)
  }

  ghost predicate HasId(ms: seq<Marker>, id: int) {
    exists k :: 0 <= k < |ms| && ms[k].LineStrip? && ms[k].id == id
  }

  ghost predicate NoneMissing(t: Trig, items: seq<Item>, offset: real, ms: seq<Marker>) {
    forall n :: 0 <= n < |items| && Drawable(t, items[n], offset) ==> HasId(ms, n + 1)
  }

  /** Exactly the drawable items are drawn, in order, each under its own number. */
  ghost predicate Numbered(t: Trig, items: seq<Item>, offset: real, ms: seq<Marker>) {
    AllDepict(t, items, offset, ms) && NoneMissing(t, items, offset, ms)
  }

  lemma {:induction false} MoreItems(t: Trig, items: seq<Item>, item: Item, offset: real, ms: seq<Marker>)
    requires AllDepict(t, items, offset, ms)
    ensures AllDepict(t, items + [item], offset, ms)
    ensures forall k :: 0 <= k < |ms| ==> ms[k].id <= |items|
  {
    forall k | 0 <= k < |ms|
      ensures Depicts(t, ms[k], items + [item], offset)
    {
      assert Depicts(t, ms[k], items, offset);
    }
  }

  lemma {:induction false} HasIdLater(ms: seq<Marker>, m: Marker, id: int)
    requires HasId(ms, id) || (m.LineStrip? && m.id == id)
    ensures HasId(ms + [m], id)
  {
    if HasId(ms, id) {
      var k :| 0 <= k < |ms| && ms[k].LineStrip? && ms[k].id == id;
      assert (ms + [m])[k] == ms[k];
    } else {
      assert (ms + [m])[|ms|] == m;
    }
  }

  lemma {:induction false} NumberedAppend(
    t: Trig, items: seq<Item>, item: Item, offset: real, ms: seq<Marker>, points: seq<Point>)
    requires Numbered(t, items, offset, ms)
    requires SegmentOutline(t, item.segment, offset) == Ok(points) && |points| >= 2
    ensures Numbered(t, items + [item], offset, ms + [LineStrip(|items| + 1, item.style, points)])
  {
    var marker := LineStrip(|items| + 1, item.style, points);
    MoreItems(t, items, item, offset, ms);
    assert Depicts(t, marker, items + [item], offset);
    forall n | 0 <= n < |items + [item]| && Drawable(t, (items + [item])[n], offset)
      ensures HasId(ms + [marker], n + 1)
    {
      assert n < |items| ==> Drawable(t, items[n], offset);
      HasIdLater(ms, marker, n + 1);
    }
  }

  lemma {:induction false} NumberedSkip(t: Trig, items: seq<Item>, item: Item, offset: real, ms: seq<Marker>)
    requires Numbered(t, items, offset, ms) && !Drawable(t, item, offset)
    ensures Numbered(t, items + [item], offset, ms)
  {
    MoreItems(t, items, item, offset, ms);
    forall n | 0 <= n < |items + [item]| && Drawable(t, (items + [item])[n], offset)
      ensures HasId(ms, n + 1)
    {
      assert Drawable(t, items[n], offset);
    }
  }

  lemma {:induction false} DrawnNumbered(t: Trig, items: seq<Item>, offset: real)
    requires Drawn(t, items, offset).Ok?
    ensures Numbered(t, items, offset, Drawn(t, items, offset).value)
  {
    if items != [] {
      var before, last := items[..|items| - 1], items[|items| - 1];
      assert items == before + [last];
      DrawnNumbered(t, before, offset);
      var ms := Drawn(t, before, offset).value;
      var points := SegmentOutline(t, last.segment, offset).value;
      if |points| >= 2 {
        NumberedAppend(t, before, last, offset, ms, points);
      } else {
        NumberedSkip(t, before, last, offset, ms);
        assert ms + [] == ms;
      }
    }
  }

  // ----- When a document has an array at all -----

  predicate Numeric(v: Json) {
    v.Integer? || (v.Number? && v.d.Finite?)
  }

  predicate RealField(o: Object, key: string) {
    key in o ==> Numeric(o[key])
  }

  predicate StringField(o: Object, key: string) {
    key in o ==> o[key].String?
  }

  predicate BoolField(o: Object, key: string) {
    key in o ==> o[key].Boolean?
  }

  predicate TypedVertex(v: Json) {
    IsVertex(v) ==> Numeric(v.elements[0]) && Numeric(v.elements[1])
  }

  /** The fields of a segment that are read, have the types they are read with. */
  predicate TypedSegment(segment: Object) {
    && StringField(segment, TYPE)
    && (IsKind(segment, SECTOR) ==>
          RealField(segment, ANGLE_START) && RealField(segment, ANGLE_END) && RealField(segment, DISTANCE))
    && (IsKind(segment, POLYGON) && HasVertices(segment) ==>
          forall i :: 0 <= i < |segment[VERTICES].elements| ==> TypedVertex(segment[VERTICES].elements[i]))
    && (IsKind(segment, TWO_POINTS) && HasVertices(segment) && |segment[VERTICES].elements| == 2 ==>
          var v, w := segment[VERTICES].elements[0], segment[VERTICES].elements[1];
          TypedVertex(v) && (IsVertex(v) ==> TypedVertex(w)))
  }

  predicate IsKind(segment: Object, kind: string) {
    TYPE in segment && segment[TYPE] == String(kind)
  }

  predicate TypedStyle(zone: Object) {
    StringField(zone, NAME) && BoolField(zone, ENABLED)
  }

  predicate TypedSegments(segments: seq<Json>) {
    forall j :: 0 <= j < |segments| && segments[j].Object? ==> TypedSegment(segments[j].fields)
  }

  predicate TypedZone(zone: Json) {
    IsZone(zone) ==> TypedStyle(zone.fields) && TypedSegments(zone.fields[SEGMENTS].elements)
  }

  predicate TypedZones(zones: seq<Json>) {
    forall i :: 0 <= i < |zones| ==> TypedZone(zones[i])
  }

  predicate TypedDocument(zones: Json) {
    HasZones(zones) ==> TypedZones(zones.fields[ZONES].elements)
  }

  lemma {:induction false} PathTyped(t: Trig, vertices: seq<Json>, offset: real)
    ensures Path(t, vertices, offset).Ok? <==> forall i :: 0 <= i < |vertices| ==> TypedVertex(vertices[i])
  {
    if vertices != [] {
      var before := vertices[..|vertices| - 1];
      PathTyped(t, before, offset);
      assert forall i :: 0 <= i < |before| ==> before[i] == vertices[i];
    }
  }

  lemma {:induction false} SegmentTyped(t: Trig, segment: Object, offset: real)
    ensures SegmentOutline(t, segment, offset).Ok? <==> TypedSegment(segment)
  {
    if HasVertices(segment) {
      PathTyped(t, segment[VERTICES].elements, offset);
    }
  }

  predicate TypedItems(items: seq<Item>) {
    forall n :: 0 <= n < |items| ==> TypedSegment(items[n].segment)
  }

  lemma {:induction false} TypedConcat(a: seq<Item>, b: seq<Item>)
    ensures TypedItems(a + b) <==> TypedItems(a) && TypedItems(b)
  {
    hide TypedSegment;
    if TypedItems(a + b) {
      assert forall n :: 0 <= n < |a| ==> a[n] == (a + b)[n];
      assert forall n :: 0 <= n < |b| ==> b[n] == (a + b)[|a| + n];
    }
  }

  lemma {:induction false} DrawnTyped(t: Trig, items: seq<Item>, offset: real)
    ensures Drawn(t, items, offset).Ok? <==> TypedItems(items)
  {
    if items != [] {
      hide TypedSegment, TypedItems, SegmentOutline;
      var before, last := items[..|items| - 1], items[|items| - 1];
      DrawnTyped(t, before, offset);
      SegmentTyped(t, last.segment, offset);
      assert items == before + [last];
      TypedConcat(before, [last]);
      TypedOne(last);
    }
  }

  lemma {:induction false} TypedOne(item: Item)
    ensures TypedItems([item]) <==> TypedSegment(item.segment)
  {
    hide TypedSegment;
    assert [item][0] == item;
  }

  lemma {:induction false} ItemsTyped(style: Style, segments: seq<Json>)
    ensures TypedItems(ItemsOf(style, segments)) <==> TypedSegments(segments)
  {
    hide TypedSegment;
    if segments != [] {
      var before, last := segments[..|segments| - 1], segments[|segments| - 1];
      ItemsTyped(style, before);
      assert TypedSegments(segments) <==> TypedSegments(before) && (last.Object? ==> TypedSegment(last.fields)) by {
        assert forall j :: 0 <= j < |before| ==> segments[j] == before[j];
      }
      if last.Object? {
        TypedConcat(ItemsOf(style, before), [Item(style, last.fields)]);
        TypedOne(Item(style, last.fields));
      } else {
        assert ItemsOf(style, segments) == ItemsOf(style, before) + [];
        assert ItemsOf(style, before) + [] == ItemsOf(style, before);
      }
    }
  }

  lemma {:induction false} StyleTyped(zone: Object, status: Json)
    ensures ZoneStyle(zone, status).Ok? <==> TypedStyle(zone)
  {
  }

  /** What one zone contributes is typed exactly if the zone is. */
  lemma {:induction false} ZoneTyped(zone: Json, status: Json)
    ensures var items := ZoneItems(zone, status); (items.Ok? && TypedItems(items.value)) <==> TypedZone(zone)
  {
    hide TypedSegments, TypedItems, TypedStyle, ZoneStyle;
    if IsZone(zone) {
      StyleTyped(zone.fields, status);
      if ZoneStyle(zone.fields, status).Ok? {
        ItemsTyped(ZoneStyle(zone.fields, status).value, zone.fields[SEGMENTS].elements);
      }
    } else {
      NothingTyped();
    }
  }

  lemma NothingTyped()
    ensures TypedItems([])
  {
  }

  lemma {:induction false} ZonesTyped(zones: seq<Json>, status: Json)
    ensures var items := AllItems(zones, status); (items.Ok? && TypedItems(items.value)) <==> TypedZones(zones)
  {
    hide TypedItems, TypedZone, ZoneItems;
    if zones == [] {
      NothingTyped();
    } else {
      var before, last := zones[..|zones| - 1], zones[|zones| - 1];
      ZonesTyped(before, status);
      ZoneTyped(last, status);
      assert TypedZones(zones) <==> TypedZones(before) && TypedZone(last) by {
        assert forall i :: 0 <= i < |before| ==> zones[i] == before[i];
      }
      var a, b := AllItems(before, status), ZoneItems(last, status);
      if a.Ok? && b.Ok? {
        TypedConcat(a.value, b.value);
      }
    }
  }

  /** A document has a marker array, and raises no type error, exactly if the fields read are well-typed. */
  lemma {:induction false} ArrayExists(t: Trig, zones: Json, status: Json, offset: real)
    ensures MarkerArray(t, zones, status, offset).Ok? <==> TypedDocument(zones)
  {
    hide TypedItems, TypedZones, AllItems, Drawn;
    if HasZones(zones) {
      var list := zones.fields[ZONES].elements;
      ZonesTyped(list, status);
      if AllItems(list, status).Ok? {
        DrawnTyped(t, AllItems(list, status).value, offset);
      }
    }
  }

  /**
   The array of a document: it starts by clearing the old markers, then come line strips under
   strictly increasing ids; each id is the position of its segment among all object segments,
   and exactly the segments with two points or more are there.
   */
  lemma {:induction false} ArrayStructure(t: Trig, zones: Json, status: Json, offset: real)
    requires HasZones(zones) && TypedDocument(zones)
    ensures MarkerArray(t, zones, status, offset).Ok?
    ensures var ms := MarkerArray(t, zones, status, offset).value;
            var items := AllItems(zones.fields[ZONES].elements, status);
            && items.Ok?
            && ms[0] == DeleteAll
            && Numbered(t, items.value, offset, ms[1..])
  {
    hide TypedDocument, AllItems, Drawn;
    ArrayExists(t, zones, status, offset);
    var items := AllItems(zones.fields[ZONES].elements, status).value;
    DrawnNumbered(t, items, offset);
    assert MarkerArray(t, zones, status, offset).value[1..] == Drawn(t, items, offset).value;
  }

  /** What is drawn for an item depends on its kind. */
  predicate Shaped(t: Trig, item: Item, offset: real, points: seq<Point>)
    requires |points| >= 2
  {
    && (IsKind(item.segment, POLYGON) ==> points[0] == points[|points| - 1])
    && (IsKind(item.segment, TWO_POINTS) ==> |points| == 2)
    && (IsKind(item.segment, SECTOR) ==>
          |points| >= 11 && points[0] == points[|points| - 1] == Centre(t, offset))
    && (IsKind(item.segment, POLYGON) || IsKind(item.segment, TWO_POINTS) || IsKind(item.segment, SECTOR))
  }

  /**
   Every marker that is drawn has the shape of its kind: polygons are closed, two-point segments
   have two points, sectors are closed at the centre, and segments of other kinds are not drawn.
   */
  lemma {:induction false} MarkerShape(t: Trig, m: Marker, items: seq<Item>, offset: real)
    requires Depicts(t, m, items, offset)
    ensures Shaped(t, items[m.id - 1], offset, m.points)
  {
    OutlineShapes(t, items[m.id - 1].segment, offset);
  }

  /**
   Object segment `j` of zone `i` is the item after those of the earlier zones and of the earlier
   segments, with the style of its own zone.
   */
  lemma {:induction false} ItemPosition(zones: seq<Json>, status: Json, i: nat, j: nat)
    requires AllItems(zones, status).Ok?
    requires i < |zones| && IsZone(zones[i])
    requires j < |zones[i].fields[SEGMENTS].elements| && zones[i].fields[SEGMENTS].elements[j].Object?
    ensures var segments := zones[i].fields[SEGMENTS].elements;
            var style := ZoneStyle(zones[i].fields, status);
            var earlier := AllItems(zones[..i], status);
            && style.Ok? && earlier.Ok?
            && var n := |earlier.value| + |ItemsOf(style.value, segments[..j])|;
               && n < |AllItems(zones, status).value|
               && AllItems(zones, status).value[n] == Item(style.value, segments[j].fields)
  {
    AllItemsPrefix(zones, status, i);
    AllItemsPrefix(zones, status, i + 1);
    AllItemsStep(zones, status, i);
    var style := ZoneStyle(zones[i].fields, status).value;
    var segments := zones[i].fields[SEGMENTS].elements;
    var earlier := AllItems(zones[..i], status).value;
    ItemsOfPrefix(style, segments, j + 1);
    ItemsOfStep(earlier, style, segments, j);
    var upTo := earlier + ItemsOf(style, segments[..j]) + [Item(style, segments[j].fields)];
    assert upTo <= earlier + ItemsOf(style, segments) <= AllItems(zones, status).value;
    assert upTo[|upTo| - 1] == Item(style, segments[j].fields);
  }
}
