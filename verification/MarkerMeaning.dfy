/** What the marker array shows, told from the fields of the document and the coordinates drawn. */
module MarkerMeaning {
  import opened Outcomes
  import opened Json
  import opened SafetyZoneMarkers
  import opened ZoneMarkerArray

  // ----- Points -----

  /** Turned back by the angle with cosine `c` and sine `s`, the point has the coordinates of the vertex. */
  ghost predicate Shows(q: Point, c: real, s: real, v: Json) {
    && v.Array? && |v.elements| >= 2
    && GetReal(v.elements[0]).Ok? && GetReal(v.elements[0]).value == q.x * c + q.y * s
    && GetReal(v.elements[1]).Ok? && GetReal(v.elements[1]).value == q.y * c - q.x * s
  }

  lemma {:induction false} VertexShows(t: Trig, v: Json, offset: real, c: real, s: real)
    requires UnitCircle(t) && c == t.cos(offset) && s == t.sin(offset)
    requires IsVertex(v) && VertexPoint(t, v, offset).Ok?
    ensures Shows(VertexPoint(t, v, offset).value, c, s, v)
  {
    hide GetReal, MakePoint, UnitCircle;
    var x, y := GetReal(v.elements[0]).value, GetReal(v.elements[1]).value;
    TurnsBack(t, x, y, offset);
    var q := MakePoint(t, x, y, offset);
    assert q.x * c + q.y * s == x && q.y * c - q.x * s == y;
  }

  lemma {:induction false} NumberReads(v: Json, x: real)
    ensures GetReal(v) == Ok(x) <==> v == Number(Finite(x)) || (v.Integer? && v.n as real == x)
  {
  }

  /** A point shows exactly the vertices whose first two numbers are its coordinates, turned back. */
  lemma {:induction false} ShowsSays(q: Point, c: real, s: real, v: Json, x: real, y: real)
    requires x == q.x * c + q.y * s && y == q.y * c - q.x * s
    ensures Shows(q, c, s, v) <==>
            && v.Array? && |v.elements| >= 2
            && (v.elements[0] == Number(Finite(x)) || (v.elements[0].Integer? && v.elements[0].n as real == x))
            && (v.elements[1] == Number(Finite(y)) || (v.elements[1].Integer? && v.elements[1].n as real == y))
  {
    if v.Array? && |v.elements| >= 2 {
      NumberReads(v.elements[0], x);
      NumberReads(v.elements[1], y);
    }
  }

  ghost predicate Increasing(picks: seq<int>) {
    forall a, b :: 0 <= a < b < |picks| ==> picks[a] < picks[b]
  }

  /** The picks are the well-formed vertices, in order, and the points show them. */
  ghost predicate Picked(vertices: seq<Json>, c: real, s: real, picks: seq<int>, ps: seq<Point>) {
    && |picks| == |ps|
    && Increasing(picks)
    && (forall k :: 0 <= k < |picks| ==> 0 <= picks[k] < |vertices| && Shows(ps[k], c, s, vertices[picks[k]]))
    && (forall i :: 0 <= i < |vertices| && IsVertex(vertices[i]) ==> i in picks)
  }

  lemma {:induction false} PathPicks(t: Trig, vertices: seq<Json>, offset: real, c: real, s: real)
    returns (picks: seq<int>)
    requires UnitCircle(t) && c == t.cos(offset) && s == t.sin(offset) && Path(t, vertices, offset).Ok?
    ensures Picked(vertices, c, s, picks, Path(t, vertices, offset).value)
  {
    picks := [];
    if vertices != [] {
      hide VertexPoint, Shows, UnitCircle, IsVertex;
      var n := |vertices| - 1;
      picks := PathPicks(t, vertices[..n], offset, c, s);
      var ps := Path(t, vertices[..n], offset).value;
      assert forall k :: 0 <= k < |picks| ==> vertices[..n][picks[k]] == vertices[picks[k]];
      assert forall i :: 0 <= i < n ==> vertices[..n][i] == vertices[i];
      if IsVertex(vertices[n]) {
        VertexShows(t, vertices[n], offset, c, s);
        PickMore(vertices, c, s, picks, ps, VertexPoint(t, vertices[n], offset).value);
        picks := picks + [n];
      }
    }
  }

  lemma {:induction false} PickMore(
    vertices: seq<Json>, c: real, s: real, picks: seq<int>, ps: seq<Point>, q: Point)
    requires vertices != [] && Picked(vertices[..|vertices| - 1], c, s, picks, ps)
    requires Shows(q, c, s, vertices[|vertices| - 1])
    ensures Picked(vertices, c, s, picks + [|vertices| - 1], ps + [q])
  {
    hide Shows, IsVertex;
    var n := |vertices| - 1;
    var more := picks + [n];
    assert more[|picks|] == n;
    forall i | 0 <= i < |vertices| && IsVertex(vertices[i])
      ensures i in more
    {
      assert i < n ==> vertices[..n][i] == vertices[i] && i in picks;
    }
  }

  // ----- Outlines, by the type of the segment -----

  /**
   A polygon is drawn through its well-formed vertices in document order and closed: point `k`, turned
   back by the offset, is the vertex at `picks[k]`, number by number.
   */
  lemma {:induction false} PolygonSays(t: Trig, segment: Object, offset: real, c: real, s: real)
    returns (picks: seq<int>)
    requires UnitCircle(t) && c == t.cos(offset) && s == t.sin(offset)
    requires "type" in segment && segment["type"] == String("polygon")
    requires SegmentOutline(t, segment, offset).Ok?
    ensures var ps := SegmentOutline(t, segment, offset).value;
            if "vertices" in segment && segment["vertices"].Array? then
              var vs := segment["vertices"].elements;
              && (forall a, b :: 0 <= a < b < |picks| ==> picks[a] < picks[b])
              && (forall i :: 0 <= i < |vs| && vs[i].Array? && |vs[i].elements| >= 2 ==> i in picks)
              && |ps| == (if picks == [] then 0 else |picks| + 1)
              && (picks != [] ==> ps[|picks|] == ps[0])
              && forall k :: 0 <= k < |picks| ==> 0 <= picks[k] < |vs| && Shows(ps[k], c, s, vs[picks[k]])
            else ps == []
  {
    hide GetReal, MakePoint, UnitCircle, Shows, SectorOutline, Path;
    Texts();
    picks := [];
    var ps := SegmentOutline(t, segment, offset).value;
    if HasVertices(segment) {
      var vs := segment["vertices"].elements;
      picks := PathPicks(t, vs, offset, c, s);
      var path := Path(t, vs, offset).value;
      assert ps == if path == [] then [] else path + [path[0]];
      forall k | 0 <= k < |picks|
        ensures Shows(ps[k], c, s, vs[picks[k]])
      {
        assert ps[k] == path[k];
      }
    }
  }

  /** A two-point segment is drawn if it has exactly two vertices, both well-formed, and then shows both. */
  lemma {:induction false} TwoPointsSay(t: Trig, segment: Object, offset: real, c: real, s: real)
    requires UnitCircle(t) && c == t.cos(offset) && s == t.sin(offset)
    requires "type" in segment && segment["type"] == String("two_points")
    requires SegmentOutline(t, segment, offset).Ok?
    ensures var ps := SegmentOutline(t, segment, offset).value;
            if "vertices" in segment && segment["vertices"].Array? && |segment["vertices"].elements| == 2
               && (forall k :: 0 <= k < 2 ==> var v := segment["vertices"].elements[k];
                                              v.Array? && |v.elements| >= 2)
            then
              && |ps| == 2
              && Shows(ps[0], c, s, segment["vertices"].elements[0])
              && Shows(ps[1], c, s, segment["vertices"].elements[1])
            else ps == []
  {
    hide GetReal, MakePoint, UnitCircle, Shows, SectorOutline, VertexPoint;
    Texts();
    var ps := SegmentOutline(t, segment, offset).value;
    if ps != [] {
      var vs := segment["vertices"].elements;
      assert ps == [ps[0], ps[1]];
      VertexShows(t, vs[0], offset, c, s);
      VertexShows(t, vs[1], offset, c, s);
    }
  }

  /** The numbers a sector is drawn from. */
  ghost predicate SectorOf(segment: Object, start: real, end: real, radius: real, span: real, steps: nat) {
    && RealOr(segment, "angle_start_deg", 0.0) == Ok(start)
    && RealOr(segment, "angle_end_deg", 0.0) == Ok(end)
    && RealOr(segment, "dist_max_m", 0.0) == Ok(radius)
    && span == SpanOf(Radians(start), Radians(end))
    && steps == Steps(span)
  }

  /**
   A sector: its three numbers are read with the default 0, the span is the difference of the angles
   and the fewest whole turns that make it non-negative, cut into the fewest steps of at most five
   degrees but no less than eight.
   */
  lemma {:induction false} SectorMeans(t: Trig, segment: Object, offset: real)
    returns (start: real, end: real, radius: real, turns: nat, span: real, steps: nat)
    requires "type" in segment && segment["type"] == String("sector") && SegmentOutline(t, segment, offset).Ok?
    ensures SectorOf(segment, start, end, radius, span, steps)
    ensures if "angle_start_deg" in segment
            then var v := segment["angle_start_deg"];
                 v == Number(Finite(start)) || (v.Integer? && start == v.n as real)
            else start == 0.0
    ensures if "angle_end_deg" in segment
            then var v := segment["angle_end_deg"]; v == Number(Finite(end)) || (v.Integer? && end == v.n as real)
            else end == 0.0
    ensures if "dist_max_m" in segment
            then var v := segment["dist_max_m"]; v == Number(Finite(radius)) || (v.Integer? && radius == v.n as real)
            else radius == 0.0
    ensures var pi := 3.14159265358979323846;
            && span == (end * pi / 180.0 - start * pi / 180.0) + turns as real * (2.0 * pi)
            && span >= 0.0 && (turns > 0 ==> span < 2.0 * pi)
            && steps >= 8 && span <= steps as real * (pi / 36.0)
            && (steps == 8 || (steps - 1) as real * (pi / 36.0) < span)
  {
    start, end, radius := SectorNumbers(t, segment, offset);
    hide *;
    turns, span, steps := SpanSays(start, end);
    SectorMade(segment, start, end, radius, span, steps);
    FieldReads(segment, "angle_start_deg", start);
    FieldReads(segment, "angle_end_deg", end);
    FieldReads(segment, "dist_max_m", radius);
  }

  lemma SectorMade(segment: Object, start: real, end: real, radius: real, span: real, steps: nat)
    requires RealOr(segment, "angle_start_deg", 0.0) == Ok(start)
    requires RealOr(segment, "angle_end_deg", 0.0) == Ok(end)
    requires RealOr(segment, "dist_max_m", 0.0) == Ok(radius)
    requires span == SpanOf(Radians(start), Radians(end)) && steps == Steps(span)
    ensures SectorOf(segment, start, end, radius, span, steps)
  {
  }

  /**
   The first and last point of a sector are the origin; point `i + 1`, turned back by the offset, lies on
   the circle `i` steps after the start angle, the last one thus at the end of the span.
   */
  lemma {:induction false} SectorPoints(
    t: Trig, segment: Object, offset: real, start: real, end: real, radius: real, span: real, steps: nat, i: nat)
    returns (angle: real)
    requires UnitCircle(t) && "type" in segment && segment["type"] == String("sector")
    requires SectorOf(segment, start, end, radius, span, steps) && i <= steps
    ensures SegmentOutline(t, segment, offset).Ok? && steps > 0
    ensures angle == start * 3.14159265358979323846 / 180.0 + span * i as real / steps as real
    ensures var ps := SegmentOutline(t, segment, offset).value;
            && |ps| == steps + 3 && ps[0] == ps[steps + 2] == Point(0.0, 0.0)
            && ps[i + 1].x * t.cos(offset) + ps[i + 1].y * t.sin(offset) == radius * t.cos(angle)
            && ps[i + 1].y * t.cos(offset) - ps[i + 1].x * t.sin(offset) == radius * t.sin(angle)
  {
    hide RealOr, SpanOf, Steps, Radians, UnitCircle, ReadSector, SegmentOutline, SectorOutline;
    angle := SectorSays(t, segment, offset, start, end, radius, span, steps, i);
    SectorKind(t, segment, offset);
  }

  lemma SectorKind(t: Trig, segment: Object, offset: real)
    requires "type" in segment && segment["type"] == String("sector") && ReadSector(segment).Ok?
    ensures var s := ReadSector(segment).value;
            SegmentOutline(t, segment, offset) == Ok(SectorOutline(t, s.0, s.1, s.2, offset))
  {
    Texts();
  }

  lemma {:induction false} SectorNumbers(t: Trig, segment: Object, offset: real)
    returns (start: real, end: real, radius: real)
    requires "type" in segment && segment["type"] == String("sector") && SegmentOutline(t, segment, offset).Ok?
    ensures RealOr(segment, "angle_start_deg", 0.0) == Ok(start)
    ensures RealOr(segment, "angle_end_deg", 0.0) == Ok(end)
    ensures RealOr(segment, "dist_max_m", 0.0) == Ok(radius)
    ensures ReadSector(segment).Ok?
  {
    Texts();
    hide RealOr, SectorOutline;
    start := RealOr(segment, "angle_start_deg", 0.0).value;
    end := RealOr(segment, "angle_end_deg", 0.0).value;
    radius := RealOr(segment, "dist_max_m", 0.0).value;
  }

  /** A segment without a type, or of another type, has no points; a type that is no text is an error. */
  lemma {:induction false} OtherKinds(t: Trig, segment: Object, offset: real)
    ensures var ps := SegmentOutline(t, segment, offset);
            if "type" in segment && !segment["type"].String? then ps == Err(TypeError)
            else if "type" in segment && segment["type"].s in {"sector", "polygon", "two_points"} then true
            else ps == Ok([])
  {
    Texts();
    OnlyError(SegmentOutline(t, segment, offset));
  }

  lemma OnlyError(r: Result<seq<Point>, TypeError>)
    ensures r.Err? ==> r == Err(TypeError)
  {
    if r.Err? {
      OneError(r);
    }
  }

  // ----- Items -----

  /** Segment `j` of zone `i` is an object, in a list of segments. */
  ghost predicate ObjectSegment(zones: seq<Json>, i: int, j: int) {
    && 0 <= i < |zones|
    && zones[i].Object? && "segments" in zones[i].fields && zones[i].fields["segments"].Array?
    && 0 <= j < |zones[i].fields["segments"].elements|
    && zones[i].fields["segments"].elements[j].Object?
  }

  /** The style of a zone: enabled unless it says otherwise, triggered if its status is known and true. */
  ghost predicate StyleSays(zone: Object, status: Json, style: Style) {
    && (if "enabled" in zone then zone["enabled"] == Boolean(style.enabled) else style.enabled)
    && ("name" in zone ==> zone["name"].String?)
    && var name := if "name" in zone then zone["name"].s else "zone";
       && style.statusKnown == (status.Object? && name in status.fields && status.fields[name].Boolean?)
       && style.triggered == (style.statusKnown && status.fields[name].b)
  }

  ghost predicate ItemFrom(zones: seq<Json>, status: Json, item: Item, i: int, j: int) {
    && ObjectSegment(zones, i, j)
    && item.segment == zones[i].fields["segments"].elements[j].fields
    && StyleSays(zones[i].fields, status, item.style)
  }

  lemma {:induction false} StyleMeans(zone: Object, status: Json)
    ensures ZoneStyle(zone, status).Ok? ==> StyleSays(zone, status, ZoneStyle(zone, status).value)
  {
    Texts();
  }

  /** The positions of the object segments of one zone. */
  lemma {:induction false} SegmentPlaces(style: Style, segments: seq<Json>) returns (places: seq<int>)
    ensures |places| == |ItemsOf(style, segments)|
    ensures Increasing(places)
    ensures forall k :: 0 <= k < |places| ==>
                          && 0 <= places[k] < |segments| && segments[places[k]].Object?
                          && ItemsOf(style, segments)[k] == Item(style, segments[places[k]].fields)
    ensures forall j :: 0 <= j < |segments| && segments[j].Object? ==> j in places
  {
    places := [];
    if segments != [] {
      var n := |segments| - 1;
      var before := SegmentPlaces(style, segments[..n]);
      assert forall j :: 0 <= j < n ==> segments[..n][j] == segments[j];
      places := before;
      if segments[n].Object? {
        places := before + [n];
        assert places[|before|] == n;
        assert forall j :: j in before ==> j in places;
      }
    }
  }

  ghost predicate Before(a: (int, int), b: (int, int)) {
    a.0 < b.0 || (a.0 == b.0 && a.1 < b.1)
  }

  /** The origins of the items: all object segments, in document order. */
  ghost predicate Origins(zones: seq<Json>, status: Json, items: seq<Item>, origin: seq<(int, int)>) {
    && |origin| == |items|
    && (forall n :: 0 <= n < |items| ==> ItemFrom(zones, status, items[n], origin[n].0, origin[n].1))
    && (forall n, m :: 0 <= n < m < |origin| ==> Before(origin[n], origin[m]))
    && (forall i, j :: ObjectSegment(zones, i, j) ==> (i, j) in origin)
  }

  lemma {:induction false} OriginsSkip(zones: seq<Json>, status: Json, items: seq<Item>, origin: seq<(int, int)>)
    requires zones != [] && Origins(zones[..|zones| - 1], status, items, origin)
    requires !IsZone(zones[|zones| - 1])
    ensures Origins(zones, status, items, origin)
  {
    Texts();
    hide StyleSays;
    Earlier(zones, status, items, origin);
    forall i, j | ObjectSegment(zones, i, j)
      ensures (i, j) in origin
    {
      assert ObjectSegment(zones[..|zones| - 1], i, j);
    }
  }

  lemma {:induction false} Earlier(zones: seq<Json>, status: Json, items: seq<Item>, origin: seq<(int, int)>)
    requires zones != [] && Origins(zones[..|zones| - 1], status, items, origin)
    ensures forall n :: 0 <= n < |items| ==>
                          ItemFrom(zones, status, items[n], origin[n].0, origin[n].1) && origin[n].0 < |zones| - 1
  {
    hide StyleSays;
    forall n | 0 <= n < |items|
      ensures ItemFrom(zones, status, items[n], origin[n].0, origin[n].1) && origin[n].0 < |zones| - 1
    {
      assert ItemFrom(zones[..|zones| - 1], status, items[n], origin[n].0, origin[n].1);
    }
  }

  lemma {:induction false} OriginsMore(
    zones: seq<Json>, status: Json, items: seq<Item>, origin: seq<(int, int)>, style: Style, places: seq<int>)
    returns (all: seq<(int, int)>)
    requires zones != [] && Origins(zones[..|zones| - 1], status, items, origin)
    requires IsZone(zones[|zones| - 1]) && StyleSays(zones[|zones| - 1].fields, status, style)
    requires var segments := zones[|zones| - 1].fields[SEGMENTS].elements;
             && |places| == |ItemsOf(style, segments)|
             && Increasing(places)
             && (forall k :: 0 <= k < |places| ==>
                               && 0 <= places[k] < |segments| && segments[places[k]].Object?
                               && ItemsOf(style, segments)[k] == Item(style, segments[places[k]].fields))
             && (forall j :: 0 <= j < |segments| && segments[j].Object? ==> j in places)
    ensures Origins(zones, status, items + ItemsOf(style, zones[|zones| - 1].fields[SEGMENTS].elements), all)
  {
    Texts();
    hide StyleSays, ItemsOf;
    var last := |zones| - 1;
    var segments := zones[last].fields[SEGMENTS].elements;
    var more := ItemsOf(style, segments);
    all := origin + seq(|places|, k requires 0 <= k < |places| => (last, places[k]));
    Earlier(zones, status, items, origin);
    forall n | 0 <= n < |items + more|
      ensures ItemFrom(zones, status, (items + more)[n], all[n].0, all[n].1)
    {
      if n >= |items| {
        var k := n - |items|;
        assert all[n] == (last, places[k]) && (items + more)[n] == more[k];
      }
    }
    forall n, m | 0 <= n < m < |all|
      ensures Before(all[n], all[m])
    {
      if n < |origin| <= m {
        assert all[n].0 < last == all[m].0;
      }
    }
    forall i, j | ObjectSegment(zones, i, j)
      ensures (i, j) in all
    {
      if i < last {
        assert ObjectSegment(zones[..last], i, j);
      } else {
        var k :| 0 <= k < |places| && places[k] == j;
        assert all[|origin| + k] == (i, j);
      }
    }
  }

  lemma {:induction false} ItemOrigins(zones: seq<Json>, status: Json) returns (origin: seq<(int, int)>)
    requires AllItems(zones, status).Ok?
    ensures Origins(zones, status, AllItems(zones, status).value, origin)
  {
    origin := [];
    if zones != [] {
      hide Origins, StyleSays, ZoneStyle;
      var before, last := zones[..|zones| - 1], zones[|zones| - 1];
      var earlier := ItemOrigins(before, status);
      var items := AllItems(before, status).value;
      if IsZone(last) {
        var style := ZoneStyle(last.fields, status).value;
        StyleMeans(last.fields, status);
        var places := SegmentPlaces(style, last.fields[SEGMENTS].elements);
        origin := OriginsMore(zones, status, items, earlier, style, places);
      } else {
        origin := earlier;
        OriginsSkip(zones, status, items, earlier);
        assert items + [] == items;
      }
    } else {
      assert Origins([], status, [], []);
    }
  }

  // ----- Markers -----

  /** The marker is drawn from the object segment its id names, in the style of that segment's zone. */
  ghost predicate MarkerFrom(
    t: Trig, zones: seq<Json>, status: Json, offset: real, origin: seq<(int, int)>, m: Marker)
  {
    && m.LineStrip? && 1 <= m.id <= |origin| && |m.points| >= 2
    && var o := origin[m.id - 1];
       && ObjectSegment(zones, o.0, o.1)
       && StyleSays(zones[o.0].fields, status, m.style)
       && SegmentOutline(t, zones[o.0].fields["segments"].elements[o.1].fields, offset) == Ok(m.points)
  }

  /** The object segment has a marker, unless it has less than two points. */
  ghost predicate IsDrawn(t: Trig, zones: seq<Json>, offset: real, o: (int, int), id: int, ms: seq<Marker>) {
    ObjectSegment(zones, o.0, o.1) &&
    var outline := SegmentOutline(t, zones[o.0].fields["segments"].elements[o.1].fields, offset);
    outline.Ok? && (|outline.value| >= 2 ==> HasId(ms, id))
  }

  /**
   The whole array: the old markers are cleared first; the object segments, in document order, are
   numbered from 1, and exactly those with two points or more are drawn, under increasing ids.
   */
  lemma {:induction false} ArrayMeans(t: Trig, zones: Json, status: Json, offset: real)
    returns (origin: seq<(int, int)>)
    requires MarkerArray(t, zones, status, offset).Ok?
    ensures var ms := MarkerArray(t, zones, status, offset).value;
            && |ms| >= 1 && ms[0] == DeleteAll
            && if zones.Object? && "zones" in zones.fields && zones.fields["zones"].Array? then
                 var list := zones.fields["zones"].elements;
                 && (forall i, j :: ObjectSegment(list, i, j) ==> (i, j) in origin)
                 && (forall n, m :: 0 <= n < m < |origin| ==> Before(origin[n], origin[m]))
                 && (forall n :: 0 <= n < |origin| ==> IsDrawn(t, list, offset, origin[n], n + 1, ms))
                 && (forall k :: 1 <= k < |ms| ==> MarkerFrom(t, list, status, offset, origin, ms[k]))
                 && (forall j, k :: 1 <= j < k < |ms| ==> ms[j].id < ms[k].id)
               else |ms| == 1
  {
    Texts();
    origin := [];
    hide AllItems, Drawn, StyleSays, TypedDocument, SegmentOutline;
    if HasZones(zones) {
      var list := zones.fields[ZONES].elements;
      ArrayExists(t, zones, status, offset);
      ArrayStructure(t, zones, status, offset);
      origin := ItemOrigins(list, status);
      var items := AllItems(list, status).value;
      var ms := MarkerArray(t, zones, status, offset).value;
      forall k | 1 <= k < |ms|
        ensures MarkerFrom(t, list, status, offset, origin, ms[k])
      {
        assert Depicts(t, ms[1..][k - 1], items, offset);
      }
      forall j, k | 1 <= j < k < |ms|
        ensures ms[j].id < ms[k].id
      {
        assert ms[1..][j - 1].id < ms[1..][k - 1].id;
      }
      DrawnTyped(t, items, offset);
      forall n | 0 <= n < |origin|
        ensures IsDrawn(t, list, offset, origin[n], n + 1, ms)
      {
        assert ItemFrom(list, status, items[n], origin[n].0, origin[n].1);
        SegmentTyped(t, items[n].segment, offset);
        if Drawable(t, items[n], offset) {
          assert HasId(ms[1..], n + 1);
          var k :| 0 <= k < |ms[1..]| && ms[1..][k].LineStrip? && ms[1..][k].id == n + 1;
          assert ms[k + 1].id == n + 1;
        }
      }
    }
  }

  /** One marker, told from the document: where its segment stands and what its style is. */
  lemma {:induction false} MarkerSays(
    t: Trig, zones: seq<Json>, status: Json, offset: real, origin: seq<(int, int)>, m: Marker)
    requires MarkerFrom(t, zones, status, offset, origin, m)
    ensures m.LineStrip? && 1 <= m.id <= |origin| && |m.points| >= 2
    ensures var (i, j) := origin[m.id - 1];
            && 0 <= i < |zones|
            && zones[i].Object? && "segments" in zones[i].fields && zones[i].fields["segments"].Array?
            && 0 <= j < |zones[i].fields["segments"].elements|
            && zones[i].fields["segments"].elements[j].Object?
            && var zone, segment := zones[i].fields, zones[i].fields["segments"].elements[j].fields;
               && SegmentOutline(t, segment, offset) == Ok(m.points)
               && "type" in segment
               && segment["type"] in {String("sector"), String("polygon"), String("two_points")}
               && (if "enabled" in zone then zone["enabled"] == Boolean(m.style.enabled) else m.style.enabled)
               && ("name" in zone ==> zone["name"].String?)
               && var name := if "name" in zone then zone["name"].s else "zone";
                  && m.style.statusKnown == (status.Object? && name in status.fields && status.fields[name].Boolean?)
                  && m.style.triggered == (m.style.statusKnown && status.fields[name].b)
  {
    hide SegmentOutline;
    var o := origin[m.id - 1];
    OtherKinds(t, zones[o.0].fields["segments"].elements[o.1].fields, offset);
  }
}
