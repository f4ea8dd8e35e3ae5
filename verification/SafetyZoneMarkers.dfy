/**
 Safety zones to RViz line strips: the outline of each segment, over the reals, and the
 marker array with its numbering. Cosine and sine are parameters.
 */
module SafetyZoneMarkers {
  import opened Outcomes
  import opened Json

  const PI: real := 3.14159265358979323846
  const TURN: real := 2.0 * PI
  const FIVE_DEGREES: real := PI / 36.0

  datatype Trig = Trig(cos: real -> real, sin: real -> real)

  ghost predicate UnitCircle(t: Trig) {
    forall a: real :: t.cos(a) * t.cos(a) + t.sin(a) * t.sin(a) == 1.0
  }

  datatype Point = Point(x: real, y: real)

  function MakePoint(t: Trig, x: real, y: real, offset: real): Point {
    Point(x * t.cos(offset) - y * t.sin(offset), x * t.sin(offset) + y * t.cos(offset))
  }

  /** The exception the JSON library throws when a value has another type than the one asked for. */
  datatype TypeError = TypeError

  type Object = map<string, Json>

  const ENABLED := "enabled"
  const NAME := "name"
  const DEFAULT_NAME := "zone"
  const SEGMENTS := "segments"
  const ZONES := "zones"
  const TYPE := "type"
  const VERTICES := "vertices"
  const ANGLE_START := "angle_start_deg"
  const ANGLE_END := "angle_end_deg"
  const DISTANCE := "dist_max_m"
  const SECTOR := "sector"
  const POLYGON := "polygon"
  const TWO_POINTS := "two_points"

  /** `get<double>`; the numbers of a parsed document are finite. */
  function GetReal(v: Json): Result<real, TypeError> {
    match GetDouble(v)
    case Some(Finite(r)) => Ok(r)
    case _ => Err(TypeError)
  }

  function RealOr(o: Object, key: string, default: real): Result<real, TypeError> {
    if key in o then GetReal(o[key]) else Ok(default)
  }

  function StringOr(o: Object, key: string, default: string): Result<string, TypeError> {
    if key !in o then Ok(default)
    else if o[key].String? then Ok(o[key].s) else Err(TypeError)
  }

  function BoolOr(o: Object, key: string, default: bool): Result<bool, TypeError> {
    if key !in o then Ok(default)
    else if o[key].Boolean? then Ok(o[key].b) else Err(TypeError)
  }

  // ----- Sectors -----

  function Ceil(x: real): (n: int)
    ensures x <= n as real < x + 1.0
  {
    -((-x).Floor)
  }

  /** The number of turns the loop adds, said without the loop. */
  function Turns(raw: real): (n: nat)
    ensures raw >= 0.0 ==> n == 0
    ensures raw < 0.0 ==> 0.0 <= raw + n as real * TURN < TURN
  {
    if raw >= 0.0 then 0 else Ceil(-raw / TURN)
  }

  /** Two ways of adding whole turns to make the same negative span small agree. */
  lemma {:induction false} TurnsUnique(raw: real, turns: nat)
    requires raw < 0.0 && 0.0 <= raw + turns as real * TURN < TURN
    ensures turns == Turns(raw)
  {
    var n := Turns(raw);
    assert turns < n ==> turns as real <= n as real - 1.0;
    assert n < turns ==> n as real <= turns as real - 1.0;
  }

  /** The loop that makes a span non-negative: whole turns are added, and no more than needed. */
  method NormalizeSpan(raw: real) returns (span: real)
    ensures span == raw + Turns(raw) as real * TURN
  {
    span := raw;
    ghost var turns: nat := 0;
    while span < 0.0
      invariant span == raw + turns as real * TURN
      invariant raw >= 0.0 ==> turns == 0
      invariant turns > 0 ==> span < TURN
      decreases -span
    {
      span := span + 2.0 * PI;
      turns := turns + 1;
    }
    if raw < 0.0 {
      TurnsUnique(raw, turns);
    }
  }

  function SpanOf(start: real, end: real): (span: real)
    ensures span >= 0.0
  {
    end - start + Turns(end - start) as real * TURN
  }

  function Steps(span: real): (n: nat)
    requires span >= 0.0
    ensures n >= 8
    ensures span <= n as real * FIVE_DEGREES
    ensures n == 8 || (n - 1) as real * FIVE_DEGREES < span
  {
    Max(8, Ceil(span / FIVE_DEGREES))
  }

  /** The angle of arc point `i`. */
  function ArcAngle(start: real, span: real, steps: nat, i: nat): real
    requires steps > 0
  {
    start + span * i as real / steps as real
  }

  function ArcPoint(t: Trig, radius: real, angle: real, offset: real): Point {
    MakePoint(t, radius * t.cos(angle), radius * t.sin(angle), offset)
  }

  function Centre(t: Trig, offset: real): Point {
    MakePoint(t, 0.0, 0.0, offset)
  }

  function ArcAt(t: Trig, start: real, span: real, steps: nat, radius: real, offset: real, i: nat): Point
    requires steps > 0
  {
    ArcPoint(t, radius, ArcAngle(start, span, steps, i), offset)
  }

  function Arc(t: Trig, start: real, span: real, steps: nat, radius: real, offset: real, count: nat): (ps: seq<Point>)
    requires steps > 0
    ensures |ps| == count
  {
    if count == 0 then []
    else
      Arc(t, start, span, steps, radius, offset, count - 1) +
      [ArcAt(t, start, span, steps, radius, offset, count - 1)]
  }

  lemma {:induction false} ArcElement(
    t: Trig, start: real, span: real, steps: nat, radius: real, offset: real, count: nat, i: nat)
    requires steps > 0 && i < count
    ensures Arc(t, start, span, steps, radius, offset, count)[i] == ArcAt(t, start, span, steps, radius, offset, i)
  {
    if i < count - 1 {
      ArcElement(t, start, span, steps, radius, offset, count - 1, i);
    }
  }

  /** The outline of a sector: the centre, the arc, the centre again. */
  function SectorOutline(t: Trig, start: real, end: real, radius: real, offset: real): (ps: seq<Point>)
    ensures |ps| == Steps(SpanOf(start, end)) + 3
  {
    var span := SpanOf(start, end);
    var steps := Steps(span);
    [Centre(t, offset)] + Arc(t, start, span, steps, radius, offset, steps + 1) + [Centre(t, offset)]
  }

  method TraceSector(t: Trig, start: real, span: real, radius: real, offset: real) returns (points: seq<Point>)
    requires span >= 0.0
    ensures points == [Centre(t, offset)]
                      + Arc(t, start, span, Steps(span), radius, offset, Steps(span) + 1)
                      + [Centre(t, offset)]
  {
    var steps: nat := Max(8, Ceil(span / (PI / 36.0)));
    points := [MakePoint(t, 0.0, 0.0, offset)];
    var i := 0;
    while i <= steps
      invariant 0 <= i <= steps + 1
      invariant points == [Centre(t, offset)] + Arc(t, start, span, steps, radius, offset, i)
    {
      var angle := ArcAngle(start, span, steps, i);
      points := points + [ArcPoint(t, radius, angle, offset)];
      i := i + 1;
    }
    points := points + [MakePoint(t, 0.0, 0.0, offset)];
  }

  function Radians(degrees: real): real {
    degrees * PI / 180.0
  }

  /** The three numbers of a sector, read with their defaults. */
  function ReadSector(segment: Object): Result<(real, real, real), TypeError> {
    var start :- RealOr(segment, ANGLE_START, 0.0);
    var end :- RealOr(segment, ANGLE_END, 0.0);
    var distance :- RealOr(segment, DISTANCE, 0.0);
    Ok((Radians(start), Radians(end), distance))
  }

  method AppendSectorPoints(t: Trig, segment: Object, offset: real, points0: seq<Point>)
    returns (r: Result<seq<Point>, TypeError>)
    ensures r == match ReadSector(segment) {
                   case Ok(s) => Ok(points0 + SectorOutline(t, s.0, s.1, s.2, offset))
                   case Err(e) => Err(e)
                 }
  {
    var startDeg :- RealOr(segment, ANGLE_START, 0.0);
    var endDeg :- RealOr(segment, ANGLE_END, 0.0);
    var start, end := Radians(startDeg), Radians(endDeg);
    var span := NormalizeSpan(end - start);
    var radius :- RealOr(segment, DISTANCE, 0.0);
    var outline := TraceSector(t, start, span, radius, offset);
    return Ok(points0 + outline);
  }

  /** Rotating by an angle keeps the distance from the origin. */
  lemma {:induction false} RotationKeepsDistance(t: Trig, x: real, y: real, offset: real)
    requires UnitCircle(t)
    ensures var p := MakePoint(t, x, y, offset); p.x * p.x + p.y * p.y == x * x + y * y
  {
    var c, s := t.cos(offset), t.sin(offset);
    var p := MakePoint(t, x, y, offset);
    assert c * c + s * s == 1.0;
    assert p.x * p.x == x * x * (c * c) - 2.0 * (x * y) * (c * s) + y * y * (s * s);
    assert p.y * p.y == x * x * (s * s) + 2.0 * (x * y) * (c * s) + y * y * (c * c);
    assert p.x * p.x + p.y * p.y == (x * x + y * y) * (c * c + s * s);
  }

  /** Turning a drawn point back by the offset gives the numbers it was made from. */
  lemma {:induction false} TurnsBack(t: Trig, x: real, y: real, offset: real)
    requires UnitCircle(t)
    ensures var q, c, s := MakePoint(t, x, y, offset), t.cos(offset), t.sin(offset);
            q.x * c + q.y * s == x && q.y * c - q.x * s == y
  {
    var q, c, s := MakePoint(t, x, y, offset), t.cos(offset), t.sin(offset);
    assert c * c + s * s == 1.0;
    assert q.x * c == x * (c * c) - y * (s * c) && q.y * s == x * (s * s) + y * (c * s);
    assert q.y * c == x * (s * c) + y * (c * c) && q.x * s == x * (c * s) - y * (s * s);
    assert x * (c * c) + x * (s * s) == x * (c * c + s * s);
    assert y * (c * c) + y * (s * s) == y * (c * c + s * s);
  }

  /** Arc points lie on the circle of the given radius. */
  lemma {:induction false} ArcOnCircle(t: Trig, radius: real, angle: real, offset: real)
    requires UnitCircle(t)
    ensures var p := ArcPoint(t, radius, angle, offset); p.x * p.x + p.y * p.y == radius * radius
  {
    var c, s := t.cos(angle), t.sin(angle);
    RotationKeepsDistance(t, radius * c, radius * s, offset);
    assert c * c + s * s == 1.0;
    assert (radius * c) * (radius * c) + (radius * s) * (radius * s) == radius * radius * (c * c + s * s);
  }

  /** From one arc point to the next the angle grows by at most five degrees. */
  lemma {:induction false} ArcStepIsSmall(start: real, span: real, i: nat)
    requires span >= 0.0
    ensures var n := Steps(span);
            0.0 <= ArcAngle(start, span, n, i + 1) - ArcAngle(start, span, n, i) <= FIVE_DEGREES
  {
    var n := Steps(span) as real;
    var j := i as real;
    assert span * (j + 1.0) / n - span * j / n == span / n by {
      DivideSum(span * j, span, n);
      assert span * (j + 1.0) == span * j + span;
    }
    assert 0.0 <= span / n <= FIVE_DEGREES by {
      QuotientBound(span, n);
    }
  }

  lemma {:induction false} DivideSum(a: real, b: real, n: real)
    requires n > 0.0
    ensures (a + b) / n == a / n + b / n
  {
  }

  lemma {:induction false} QuotientBound(span: real, n: real)
    requires n > 0.0 && 0.0 <= span <= n * FIVE_DEGREES
    ensures 0.0 <= span / n <= FIVE_DEGREES
  {
    var q := span / n;
    assert q * n == span;
    assert q > FIVE_DEGREES ==> q * n > FIVE_DEGREES * n;
  }

  lemma {:induction false} ArcEnds(start: real, span: real, steps: nat)
    requires steps > 0
    ensures ArcAngle(start, span, steps, 0) == start
    ensures ArcAngle(start, span, steps, steps) == start + span
  {
    FullQuotient(span, steps as real);
  }

  lemma {:induction false} FullQuotient(span: real, n: real)
    requires n > 0.0
    ensures span * n / n == span
  {
  }

  lemma {:induction false} OutlinePoint(
    t: Trig, start: real, end: real, radius: real, offset: real, span: real, steps: nat, i: nat)
    requires UnitCircle(t) && span == SpanOf(start, end) && steps == Steps(span) && i <= steps
    ensures var p := SectorOutline(t, start, end, radius, offset)[i + 1];
            p == ArcAt(t, start, span, steps, radius, offset, i) && p.x * p.x + p.y * p.y == radius * radius
  {
    ArcElement(t, start, span, steps, radius, offset, steps + 1, i);
    ArcOnCircle(t, radius, ArcAngle(start, span, steps, i), offset);
  }

  /**
   The outline of a sector starts and ends at the centre; in between are points of the circle,
   the first at the start angle, the last a whole number of turns from the end angle.
   */
  lemma {:induction false} SectorShape(t: Trig, start: real, end: real, radius: real, offset: real)
    requires UnitCircle(t)
    ensures var ps := SectorOutline(t, start, end, radius, offset);
            var n := Steps(SpanOf(start, end));
            && ps[0] == ps[|ps| - 1] == Point(0.0, 0.0)
            && (forall i: nat :: 1 <= i <= n + 1 ==> ps[i].x * ps[i].x + ps[i].y * ps[i].y == radius * radius)
            && ps[1] == ArcPoint(t, radius, start, offset)
            && ps[n + 1] == ArcPoint(t, radius, start + SpanOf(start, end), offset)
  {
    hide Steps, SpanOf, ArcAngle, ArcPoint, Arc, UnitCircle;
    var ps := SectorOutline(t, start, end, radius, offset);
    var span := SpanOf(start, end);
    var n := Steps(span);
    forall i: nat | 1 <= i <= n + 1
      ensures ps[i].x * ps[i].x + ps[i].y * ps[i].y == radius * radius
    {
      OutlinePoint(t, start, end, radius, offset, span, n, i - 1);
    }
    OutlinePoint(t, start, end, radius, offset, span, n, 0);
    OutlinePoint(t, start, end, radius, offset, span, n, n);
    ArcEnds(start, span, n);
  }

  // ----- A sector, told from the fields of its segment -----

  /** The texts of the keys and kinds. */
  lemma Texts()
    ensures ENABLED == "enabled" && NAME == "name" && DEFAULT_NAME == "zone" && SEGMENTS == "segments"
    ensures ZONES == "zones" && TYPE == "type" && VERTICES == "vertices"
    ensures ANGLE_START == "angle_start_deg" && ANGLE_END == "angle_end_deg" && DISTANCE == "dist_max_m"
    ensures SECTOR == "sector" && POLYGON == "polygon" && TWO_POINTS == "two_points"
  {
  }

  /** A number is taken as it is, whichever way the document writes it; an absent one is 0. */
  lemma {:induction false} FieldReads(o: Object, key: string, x: real)
    ensures RealOr(o, key, 0.0) == Ok(x) <==>
            if key in o then o[key] == Number(Finite(x)) || (o[key].Integer? && x == o[key].n as real) else x == 0.0
  {
  }

  /**
   The span of a sector is the difference of its angles and the fewest whole turns that make it
   non-negative; it is cut into the fewest steps of at most five degrees, but no less than eight.
   */
  lemma {:induction false} SpanSays(start: real, end: real) returns (turns: nat, span: real, steps: nat)
    ensures span == SpanOf(Radians(start), Radians(end)) && steps == Steps(span)
    ensures var pi := 3.14159265358979323846;
            && span == (end * pi / 180.0 - start * pi / 180.0) + turns as real * (2.0 * pi)
            && span >= 0.0 && (turns > 0 ==> span < 2.0 * pi)
            && steps >= 8 && span <= steps as real * (pi / 36.0)
            && (steps == 8 || (steps - 1) as real * (pi / 36.0) < span)
  {
    var from, to := Radians(start), Radians(end);
    turns := Turns(to - from);
    span := SpanOf(from, to);
    steps := Steps(span);
  }

  lemma {:induction false} RadiansSay(degrees: real)
    ensures Radians(degrees) == degrees * 3.14159265358979323846 / 180.0
  {
  }

  lemma {:induction false} ArcTurnsBack(t: Trig, radius: real, angle: real, offset: real)
    requires UnitCircle(t)
    ensures var q := ArcPoint(t, radius, angle, offset);
            && q.x * t.cos(offset) + q.y * t.sin(offset) == radius * t.cos(angle)
            && q.y * t.cos(offset) - q.x * t.sin(offset) == radius * t.sin(angle)
  {
    TurnsBack(t, radius * t.cos(angle), radius * t.sin(angle), offset);
  }

  /** The same of an outline whose angles are in radians already. */
  lemma {:induction false} OutlineSays(
    t: Trig, start: real, end: real, radius: real, offset: real, span: real, steps: nat, i: nat)
    requires UnitCircle(t) && span == SpanOf(start, end) && steps == Steps(span) && i <= steps
    ensures var ps := SectorOutline(t, start, end, radius, offset);
            && |ps| == steps + 3 && ps[0] == ps[steps + 2] == Point(0.0, 0.0)
            && var q, a := ps[i + 1], ArcAngle(start, span, steps, i);
               && q.x * t.cos(offset) + q.y * t.sin(offset) == radius * t.cos(a)
               && q.y * t.cos(offset) - q.x * t.sin(offset) == radius * t.sin(a)
  {
    hide SectorOutline, SpanOf, Steps, ArcPoint, UnitCircle, ArcAngle;
    SectorShape(t, start, end, radius, offset);
    OutlinePoint(t, start, end, radius, offset, span, steps, i);
    ArcTurnsBack(t, radius, ArcAngle(start, span, steps, i), offset);
  }

  /**
   The outline of a sector segment, point by point: the first and the last point are the origin, and
   the others, turned back by the offset, lie on the circle at angles spread evenly over the span.
   */
  lemma {:induction false} SectorSays(
    t: Trig, segment: Object, offset: real, start: real, end: real, radius: real, span: real, steps: nat, i: nat)
    returns (angle: real)
    requires UnitCircle(t)
    requires RealOr(segment, "angle_start_deg", 0.0) == Ok(start)
    requires RealOr(segment, "angle_end_deg", 0.0) == Ok(end)
    requires RealOr(segment, "dist_max_m", 0.0) == Ok(radius)
    requires span == SpanOf(Radians(start), Radians(end)) && steps == Steps(span) && i <= steps
    ensures angle == start * 3.14159265358979323846 / 180.0 + span * i as real / steps as real
    ensures ReadSector(segment).Ok?
    ensures var s := ReadSector(segment).value;
            var ps := SectorOutline(t, s.0, s.1, s.2, offset);
            && |ps| == steps + 3 && ps[0] == ps[steps + 2] == Point(0.0, 0.0)
            && ps[i + 1].x * t.cos(offset) + ps[i + 1].y * t.sin(offset) == radius * t.cos(angle)
            && ps[i + 1].y * t.cos(offset) - ps[i + 1].x * t.sin(offset) == radius * t.sin(angle)
  {
    Texts();
    RadiansSay(start);
    hide SectorOutline, SpanOf, Steps, RealOr, UnitCircle, Radians;
    var from, to := Radians(start), Radians(end);
    angle := ArcAngle(from, span, steps, i);
    assert ReadSector(segment) == Ok((from, to, radius));
    OutlineSays(t, from, to, radius, offset, span, steps, i);
  }
}
