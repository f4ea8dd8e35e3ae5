/** The published message: ranges in metres, their hull, and the scan time. */
module LaserScan {
  import opened M360Packet
  import opened FullScanAssembler
  import opened AssemblerHistory
  import opened AssemblerRuns

  /** An entry of the message's range vector: infinity, or a finite number of metres. */
  datatype Reading = Infinite | Metres(metres: real)

  function ToReading(d: Distance): (r: Reading)
    ensures r.Metres? <==> d.Millimetres?
    ensures r.Metres? ==> r.metres * 1000.0 == d.mm as real && r.metres >= 0.0
  {
    if d.NoObject? then Infinite else Metres(d.mm as real / 1000.0)
  }

  datatype Message = Message(
    ranges: seq<Reading>,
    intensities: seq<u32>,
    scanTime: real,
    rangeMin: real,
    rangeMax: real)

  function ScanTime(frequency: u16): (t: real)
    ensures frequency > 0 ==> t * frequency as real == 1.0
    ensures frequency == 0 ==> t == 0.1
  {
    if frequency > 0 then 1.0 / frequency as real else 0.1
  }

  ghost predicate SomeFinite(ranges: seq<Reading>) {
    exists i :: 0 <= i < |ranges| && ranges[i].Metres?
  }

  /** The value occurs among the finite readings. */
  ghost predicate Occurs(ranges: seq<Reading>, m: real) {
    exists i :: 0 <= i < |ranges| && ranges[i] == Metres(m)
  }

  method RangeMinOrDefault(ranges: seq<Reading>) returns (result: real)
    ensures !SomeFinite(ranges) ==> result == 0.0
    ensures SomeFinite(ranges) ==> Occurs(ranges, result)
    ensures forall i :: 0 <= i < |ranges| && ranges[i].Metres? ==> result <= ranges[i].metres
  {
    var best := Infinite;
    var i := 0;
    while i < |ranges|
      invariant 0 <= i <= |ranges|
      invariant best.Infinite? <==> forall j :: 0 <= j < i ==> ranges[j].Infinite?
      invariant best.Metres? ==> Occurs(ranges, best.metres)
      invariant best.Metres? ==> forall j :: 0 <= j < i && ranges[j].Metres? ==> best.metres <= ranges[j].metres
    {
      if ranges[i].Metres? && (best.Infinite? || ranges[i].metres < best.metres) {
        best := ranges[i];
      }
      i := i + 1;
    }
    return if best.Metres? then best.metres else 0.0;
  }

  /** All that the accumulator loop promises about its result. */
  ghost predicate MaximumFromZero(ranges: seq<Reading>, hi: real) {
    && hi >= 0.0
    && (hi == 0.0 || Occurs(ranges, hi))
    && (forall i :: 0 <= i < |ranges| && ranges[i].Metres? ==> ranges[i].metres <= hi)
  }

  /** The accumulator starts at 0, so the result is the maximum of the finite readings and 0. */
  method RangeMaxOrDefault(ranges: seq<Reading>) returns (result: real)
    ensures MaximumFromZero(ranges, result)
  {
    result := 0.0;
    var i := 0;
    while i < |ranges|
      invariant 0 <= i <= |ranges|
      invariant result >= 0.0
      invariant result == 0.0 || Occurs(ranges, result)
      invariant forall j :: 0 <= j < i && ranges[j].Metres? ==> ranges[j].metres <= result
    {
      if ranges[i].Metres? && ranges[i].metres > result {
        result := ranges[i].metres;
      }
      i := i + 1;
    }
  }

  /** `[lo, hi]` is the smallest interval around the finite readings, or `[0, 0]` without any. */
  ghost predicate Hull(ranges: seq<Reading>, lo: real, hi: real) {
    && (forall i :: 0 <= i < |ranges| && ranges[i].Metres? ==> lo <= ranges[i].metres <= hi)
    && (SomeFinite(ranges) ==> Occurs(ranges, lo) && Occurs(ranges, hi))
    && (!SomeFinite(ranges) ==> lo == 0.0 && hi == 0.0)
  }

  ghost predicate NonNegative(ranges: seq<Reading>) {
    forall i :: 0 <= i < |ranges| && ranges[i].Metres? ==> ranges[i].metres >= 0.0
  }

  /** Starting the maximum at 0 is right because a decoded distance is never negative. */
  lemma ZeroStartIsHarmless(ranges: seq<Reading>, hi: real)
    requires NonNegative(ranges) && MaximumFromZero(ranges, hi)
    ensures SomeFinite(ranges) ==> Occurs(ranges, hi)
    ensures !SomeFinite(ranges) ==> hi == 0.0
  {
    if SomeFinite(ranges) && hi == 0.0 {
      var i :| 0 <= i < |ranges| && ranges[i].Metres?;
      assert ranges[i] == Metres(0.0);
    }
  }

  /**
   For readings of any sign, what the loop computes is the largest finite reading if and only if
   not all of them are negative.
   */
  lemma {:induction false} ZeroStartNeedsNonNegative(ranges: seq<Reading>, hi: real)
    requires MaximumFromZero(ranges, hi) && SomeFinite(ranges)
    ensures Occurs(ranges, hi) <==> exists i :: 0 <= i < |ranges| && ranges[i].Metres? && ranges[i].metres >= 0.0
  {
    if i :| 0 <= i < |ranges| && ranges[i].Metres? && ranges[i].metres >= 0.0 {
      assert hi == 0.0 ==> ranges[i] == Metres(0.0);
    }
  }

  /** What a message must say about the distances and intensities it was built from. */
  ghost predicate Reports(m: Message, distances: seq<Distance>, intensities: seq<u32>, frequency: u16) {
    && |m.ranges| == |distances|
    && (forall i :: 0 <= i < |distances| ==> m.ranges[i] == ToReading(distances[i]))
    && m.intensities == intensities
    && m.scanTime == ScanTime(frequency)
    && Hull(m.ranges, m.rangeMin, m.rangeMax)
  }

  /** The same, field by field. */
  lemma {:induction false} ReportsMeans(
    m: Message, distances: seq<Distance>, intensities: seq<u32>, frequency: u16, i: nat)
    requires Reports(m, distances, intensities, frequency)
    ensures |m.ranges| == |distances| && m.intensities == intensities
    ensures i < |distances| ==>
              match distances[i] {
                case NoObject => m.ranges[i] == Infinite
                case Millimetres(mm) =>
                  && m.ranges[i].Metres?
                  && m.ranges[i].metres * 1000.0 == mm as real
                  && m.rangeMin <= m.ranges[i].metres <= m.rangeMax
              }
    ensures if frequency == 0 then m.scanTime == 0.1 else m.scanTime * frequency as real == 1.0
    ensures (exists j :: 0 <= j < |distances| && distances[j].Millimetres?) ==>
              && (exists j :: 0 <= j < |m.ranges| && m.ranges[j] == Metres(m.rangeMin))
              && (exists j :: 0 <= j < |m.ranges| && m.ranges[j] == Metres(m.rangeMax))
    ensures (forall j :: 0 <= j < |distances| ==> distances[j].NoObject?) ==> m.rangeMin == 0.0 && m.rangeMax == 0.0
  {
    if j :| 0 <= j < |distances| && distances[j].Millimetres? {
      assert m.ranges[j] == ToReading(distances[j]);
    }
    if forall j :: 0 <= j < |distances| ==> distances[j].NoObject? {
      assert forall j :: 0 <= j < |distances| ==> m.ranges[j] == ToReading(distances[j]);
    }
  }

  /** The tail of every poll function: convert, measure, fill in. */
  method BuildMessage(distances: seq<Distance>, intensities: seq<u32>, frequency: u16) returns (m: Message)
    ensures Reports(m, distances, intensities, frequency)
  {
    var ranges: seq<Reading> := [];
    var i := 0;
    while i < |distances|
      invariant 0 <= i <= |distances| && |ranges| == i
      invariant forall j :: 0 <= j < i ==> ranges[j] == ToReading(distances[j])
    {
      ranges := ranges + [ToReading(distances[i])];
      i := i + 1;
    }
    var lo := RangeMinOrDefault(ranges);
    var hi := RangeMaxOrDefault(ranges);
    ZeroStartIsHarmless(ranges, hi);
    m := Message(ranges, intensities, ScanTime(frequency), lo, hi);
  }

  lemma PointOfBlock(s: State, k: nat, p: Packet, c: nat)
    requires k < PACKETS_PER_REV && c < CHANNELS && BlockHolds(s, k, p)
    ensures s.ranges[CHANNELS * k + c] == p.ranges[c]
    ensures s.intensities[CHANNELS * k + c] == p.intensities[c]
  {
    assert s.ranges[CHANNELS * k + c] == Block(s.ranges, k)[c];
    assert s.intensities[CHANNELS * k + c] == Block(s.intensities, k)[c];
  }

  /** The message says, at every point of position `k`, what packet `p` measured there. */
  ghost predicate ReportsPacket(m: Message, k: nat, p: Packet) {
    && |m.ranges| == |m.intensities| == POINTS_PER_REV && k < PACKETS_PER_REV
    && forall c: nat :: c < CHANNELS ==>
                          && m.ranges[CHANNELS * k + c] == ToReading(p.ranges[c])
                          && m.intensities[CHANNELS * k + c] == p.intensities[c]
  }

  /**
   A message built from a completed history: every position reports the first packet that
   covered it, and all those packets carry the one active rotation counter.
   */
  lemma {:induction false} CompleteScan(m: Message, h: seq<Packet>, k: nat)
    requires |h| > 0 && Run(h).complete && k < PACKETS_PER_REV
    requires Reports(m, Run(h).ranges, Run(h).intensities, Run(h).frequency)
    ensures exists j: nat :: FirstFill(h, k, j) && h[j].rotation == Run(h).rotation && ReportsPacket(m, k, h[j])
  {
    RunCounts(h);
    RunExplained(h);
    assert Filled(h, k);
    var i: nat :| Fills(h, k, i);
    FirstFillExists(h, k, i);
    var j: nat :| FirstFill(h, k, j);
    ReportsBlock(m, Run(h), k, h[j]);
  }

  lemma {:induction false} ReportsBlock(m: Message, s: State, k: nat, p: Packet)
    requires k < PACKETS_PER_REV && BlockHolds(s, k, p)
    requires Reports(m, s.ranges, s.intensities, s.frequency)
    ensures ReportsPacket(m, k, p)
  {
    forall c: nat | c < CHANNELS
      ensures m.ranges[CHANNELS * k + c] == ToReading(p.ranges[c])
      ensures m.intensities[CHANNELS * k + c] == p.intensities[c]
    {
      PointOfBlock(s, k, p, c);
    }
  }
}
