/**
 From a scan on the device to the assembled revolution: cut into twenty packets, encoded,
 delivered in any order with repeats and among foreign datagrams, decoded and assembled.
 */
module ScanDelivery {
  import opened M360Packet
  import opened FullScanAssembler
  import opened AssemblerHistory
  import opened AssemblerRuns

  datatype ScanFields = ScanFields(
    rotation: u16,
    frequency: u16,
    seconds: u32,
    fraction: u32,
    ranges: seq<Distance>,
    intensities: seq<u32>)

  type Scan = s: ScanFields | |s.ranges| == POINTS_PER_REV && |s.intensities| == POINTS_PER_REV
    witness ScanFields(0, 0, 0, 0, seq(2300, _ => NoObject), seq(2300, _ => 0))

  /** Packet `k` of the twenty that carry a scan. */
  function Cut(scan: Scan, k: nat): (p: Packet)
    requires k < PACKETS_PER_REV
    ensures p.Position() == k && p.rotation == scan.rotation
  {
    PacketFields(scan.rotation, scan.frequency, CHANNELS * k, scan.fraction, scan.seconds,
                 Block(scan.ranges, k), Block(scan.intensities, k))
  }

  ghost predicate Carries(raw: seq<byte>, scan: Scan, k: nat) {
    k < PACKETS_PER_REV && raw == Encode(Cut(scan, k))
  }

  ghost predicate Genuine(raw: seq<byte>, scan: Scan) {
    exists k: nat :: Carries(raw, scan, k)
  }

  /** A datagram the scan is indifferent to: rejected, or of an older revolution. */
  ghost predicate Foreign(raw: seq<byte>, scan: Scan) {
    |raw| == PKT_LEN && Decode(raw).Ok? ==> Delta(Decode(raw).value.rotation, scan.rotation) < 0
  }

  ghost predicate Delivery(raws: seq<seq<byte>>, scan: Scan) {
    forall i :: 0 <= i < |raws| ==> Foreign(raws[i], scan) || Genuine(raws[i], scan)
  }

  /** The packet a datagram carries, if any: what it adds to a history. */
  function Survivor(raw: seq<byte>): seq<Packet> {
    if |raw| == PKT_LEN && Decode(raw).Ok? then [Decode(raw).value] else []
  }

  /** The packets that survive decoding, in order of arrival. */
  function Survivors(raws: seq<seq<byte>>): seq<Packet> {
    if raws == [] then [] else Survivors(raws[..|raws| - 1]) + Survivor(raws[|raws| - 1])
  }

  lemma SurvivorsSnoc(raws: seq<seq<byte>>, raw: seq<byte>)
    ensures Survivors(raws + [raw]) == Survivors(raws) + Survivor(raw)
  {
    assert (raws + [raw])[..|raws|] == raws;
  }

  /** A datagram adds its packet if it has 936 bytes and decodes, and nothing otherwise. */
  lemma {:induction false} SurvivorsMeans(raws: seq<seq<byte>>, raw: seq<byte>)
    ensures Survivors([]) == []
    ensures Survivors(raws + [raw]) ==
            if |raw| == 936 && Decode(raw).Ok? then Survivors(raws) + [Decode(raw).value] else Survivors(raws)
  {
    SurvivorsSnoc(raws, raw);
  }

  lemma Associative<T>(a: seq<T>, b: seq<T>, c: seq<T>)
    ensures (a + b) + c == a + (b + c)
  {
  }

  lemma {:induction false} SurvivorsConcat(a: seq<seq<byte>>, b: seq<seq<byte>>)
    ensures Survivors(a + b) == Survivors(a) + Survivors(b)
  {
    if b == [] {
      assert a + b == a;
    } else {
      hide Survivors, Survivor;
      var before, raw := b[..|b| - 1], b[|b| - 1];
      assert b == before + [raw];
      Associative(a, before, [raw]);
      calc {
        Survivors(a + b);
        { SurvivorsSnoc(a + before, raw); }
        Survivors(a + before) + Survivor(raw);
        { SurvivorsConcat(a, before); }
        Survivors(a) + Survivors(before) + Survivor(raw);
        { Associative(Survivors(a), Survivors(before), Survivor(raw)); }
        Survivors(a) + (Survivors(before) + Survivor(raw));
        { SurvivorsSnoc(before, raw); }
        Survivors(a) + Survivors(b);
      }
    }
  }

  /** The positions of the scan that have arrived. */
  ghost function Arrived(raws: seq<seq<byte>>, scan: Scan): set<nat> {
    set k: nat | k < PACKETS_PER_REV && Encode(Cut(scan, k)) in raws
  }

  /** After a history, the active revolution consists of this scan's packets, for these positions. */
  ghost predicate Collecting(h: seq<Packet>, scan: Scan, arrived: set<nat>)
    requires |h| > 0
  {
    && Active(h) == scan.rotation
    && h[Start(h)].Position() < PACKETS_PER_REV
    && h[Start(h)] == Cut(scan, h[Start(h)].Position())
    && (forall k: nat :: k < PACKETS_PER_REV ==> (Filled(h, k) <==> k in arrived))
    && (forall k: nat, j: nat :: k < PACKETS_PER_REV && Fills(h, k, j) ==> h[j] == Cut(scan, k))
  }

  lemma {:induction false} CollectFirst(h: seq<Packet>, scan: Scan, k: nat)
    requires k < PACKETS_PER_REV
    requires h == [] || Delta(scan.rotation, Active(h)) > 0
    ensures Collecting(h + [Cut(scan, k)], scan, {k})
  {
    var p := Cut(scan, k);
    if h != [] {
      StartSnoc(h, p);
    }
    assert Start(h + [p]) == |h|;
    assert Fills(h + [p], k, |h|);
  }

  lemma {:induction false} CollectMore(h: seq<Packet>, scan: Scan, arrived: set<nat>, k: nat)
    requires k < PACKETS_PER_REV && |h| > 0 && Collecting(h, scan, arrived)
    ensures Collecting(h + [Cut(scan, k)], scan, arrived + {k})
  {
    var p := Cut(scan, k);
    StartSnoc(h, p);
    forall q: nat, j: nat
      ensures Fills(h + [p], q, j) <==> Fills(h, q, j) || (j == |h| && q == k)
    {
      FillsSnoc(h, p, q, j);
    }
    assert Fills(h + [p], k, |h|);
    forall q: nat | q < PACKETS_PER_REV
      ensures Filled(h + [p], q) <==> q in arrived + {k}
    {
      if q in arrived {
        var j: nat :| Fills(h, q, j);
        assert Fills(h + [p], q, j);
      }
    }
  }

  lemma {:induction false} CollectStale(h: seq<Packet>, scan: Scan, arrived: set<nat>, p: Packet)
    requires |h| > 0 && Collecting(h, scan, arrived)
    requires Delta(p.rotation, scan.rotation) < 0
    ensures Collecting(h + [p], scan, arrived)
  {
    StartSnoc(h, p);
    forall q: nat, j: nat
      ensures Fills(h + [p], q, j) <==> Fills(h, q, j)
    {
      FillsSnoc(h, p, q, j);
    }
    SameFills(h, h + [p]);
  }

  lemma CutsDiffer(scan: Scan, j: nat, k: nat)
    requires j < PACKETS_PER_REV && k < PACKETS_PER_REV
    requires Encode(Cut(scan, j)) == Encode(Cut(scan, k))
    ensures j == k
  {
    DecodeEncode(Cut(scan, j));
    DecodeEncode(Cut(scan, k));
  }

  lemma {:induction false} ArrivedSnoc(raws: seq<seq<byte>>, scan: Scan, raw: seq<byte>)
    ensures forall k: nat :: Carries(raw, scan, k) ==> Arrived(raws + [raw], scan) == Arrived(raws, scan) + {k}
    ensures Foreign(raw, scan) ==> Arrived(raws + [raw], scan) == Arrived(raws, scan)
  {
    forall k: nat | Carries(raw, scan, k)
      ensures Arrived(raws + [raw], scan) == Arrived(raws, scan) + {k}
    {
      forall j: nat | j < PACKETS_PER_REV
        ensures j in Arrived(raws + [raw], scan) <==> j in Arrived(raws, scan) + {k}
      {
        if Encode(Cut(scan, j)) == raw {
          CutsDiffer(scan, j, k);
        }
      }
    }
    if Foreign(raw, scan) {
      forall j: nat | j < PACKETS_PER_REV
        ensures Encode(Cut(scan, j)) != raw
      {
        DecodeEncode(Cut(scan, j));
      }
    }
  }

  lemma {:induction false} CollectForeign(h: seq<Packet>, scan: Scan, arrived: set<nat>, raw: seq<byte>)
    requires |h| > 0 && Collecting(h, scan, arrived) && Foreign(raw, scan)
    ensures Collecting(h + Survivor(raw), scan, arrived)
  {
    if |raw| == PKT_LEN && Decode(raw).Ok? {
      CollectStale(h, scan, arrived, Decode(raw).value);
    } else {
      assert h + Survivor(raw) == h;
    }
  }

  lemma {:induction false} CollectDatagram(h: seq<Packet>, scan: Scan, before: seq<seq<byte>>, raw: seq<byte>)
    requires |h| > 0 && Collecting(h, scan, Arrived(before, scan))
    requires Foreign(raw, scan) || Genuine(raw, scan)
    ensures Collecting(h + Survivor(raw), scan, Arrived(before + [raw], scan))
  {
    ArrivedSnoc(before, scan, raw);
    if Foreign(raw, scan) {
      CollectForeign(h, scan, Arrived(before, scan), raw);
    } else {
      var k: nat :| Carries(raw, scan, k);
      CarriedPacket(raw, scan, k);
      CollectMore(h, scan, Arrived(before, scan), k);
    }
  }

  lemma CarriedPacket(raw: seq<byte>, scan: Scan, k: nat)
    requires Carries(raw, scan, k)
    ensures Survivor(raw) == [Cut(scan, k)]
  {
    DecodeEncode(Cut(scan, k));
  }

  lemma FirstDatagram(raw: seq<byte>, scan: Scan, k: nat)
    requires Carries(raw, scan, k)
    ensures Survivors([raw]) == [Cut(scan, k)]
    ensures Arrived([raw], scan) == {k}
  {
    CarriedPacket(raw, scan, k);
    forall j: nat | j < PACKETS_PER_REV && Encode(Cut(scan, j)) == raw
      ensures j == k
    {
      CutsDiffer(scan, j, k);
    }
    assert [raw][..0] == [];
    assert Survivors([raw]) == Survivors([]) + Survivor(raw);
  }

  lemma {:induction false} CollectLast(h: seq<Packet>, scan: Scan, before: seq<seq<byte>>, raw: seq<byte>)
    requires |h + Survivors(before)| > 0 && Collecting(h + Survivors(before), scan, Arrived(before, scan))
    requires Foreign(raw, scan) || Genuine(raw, scan)
    ensures |h + Survivors(before + [raw])| > 0
    ensures Collecting(h + Survivors(before + [raw]), scan, Arrived(before + [raw], scan))
  {
    SurvivorsSnoc(before, raw);
    assert h + Survivors(before + [raw]) == (h + Survivors(before)) + Survivor(raw);
    CollectDatagram(h + Survivors(before), scan, before, raw);
  }

  lemma {:induction false} CollectDelivery(h: seq<Packet>, raws: seq<seq<byte>>, scan: Scan)
    requires h == [] || Delta(scan.rotation, Active(h)) > 0
    requires Delivery(raws, scan) && |raws| > 0 && Genuine(raws[0], scan)
    ensures |h + Survivors(raws)| > 0
    ensures Collecting(h + Survivors(raws), scan, Arrived(raws, scan))
  {
    hide Collecting, Arrived, Decode, Encode, Survivor, Cut;
    if |raws| == 1 {
      var k: nat :| Carries(raws[0], scan, k);
      assert raws == [raws[0]];
      FirstDatagram(raws[0], scan, k);
      CollectFirst(h, scan, k);
    } else {
      var before, raw := raws[..|raws| - 1], raws[|raws| - 1];
      CollectDelivery(h, before, scan);
      CollectLast(h, scan, before, raw);
      assert raws == before + [raw];
    }
  }

  lemma BlocksDetermine<T>(a: seq<T>, b: seq<T>)
    requires |a| == POINTS_PER_REV && |b| == POINTS_PER_REV
    requires forall k: nat :: k < PACKETS_PER_REV ==> Block(a, k) == Block(b, k)
    ensures a == b
  {
    forall i | 0 <= i < POINTS_PER_REV
      ensures a[i] == b[i]
    {
      var k := i / CHANNELS;
      assert Block(a, k)[i - CHANNELS * k] == a[i];
      assert Block(b, k)[i - CHANNELS * k] == b[i];
    }
  }

  lemma {:induction false} CollectedBlock(h: seq<Packet>, scan: Scan, arrived: set<nat>, k: nat)
    requires |h| > 0 && Collecting(h, scan, arrived) && Explains(h, Run(h))
    requires k < PACKETS_PER_REV
    ensures k in arrived ==> BlockHolds(Run(h), k, Cut(scan, k))
    ensures k !in arrived ==> BlockBlank(Run(h), k)
    ensures k == 0 ==> HeaderOf(Run(h), Cut(scan, 0))
  {
    if k in arrived {
      var j: nat :| Fills(h, k, j);
      FirstFillExists(h, k, j);
      var i: nat :| FirstFill(h, k, i);
      assert h[i] == Cut(scan, k);
    }
  }

  lemma {:induction false} CollectedScan(h: seq<Packet>, scan: Scan, arrived: set<nat>)
    requires |h| > 0 && Collecting(h, scan, arrived) && Explains(h, Run(h))
    requires forall k: nat :: k < PACKETS_PER_REV ==> k in arrived
    ensures Run(h).ranges == scan.ranges && Run(h).intensities == scan.intensities
  {
    forall k: nat | k < PACKETS_PER_REV
      ensures Block(Run(h).ranges, k) == Block(scan.ranges, k)
      ensures Block(Run(h).intensities, k) == Block(scan.intensities, k)
    {
      CollectedBlock(h, scan, arrived, k);
    }
    BlocksDetermine(Run(h).ranges, scan.ranges);
    BlocksDetermine(Run(h).intensities, scan.intensities);
  }

  /**
   The end-to-end round trip. Whatever was assembled before, and in whatever order, with
   whatever repeats and foreign datagrams a newer scan arrives, the positions held are those
   that have arrived, each with the scan's own points and the scan's own header; the
   revolution is complete exactly from the twentieth distinct packet on, and then it is the
   scan.
   */
  lemma DeliveredScan(h: seq<Packet>, raws: seq<seq<byte>>, scan: Scan)
    requires h == [] || Delta(scan.rotation, Active(h)) > 0
    requires Delivery(raws, scan) && |raws| > 0 && Genuine(raws[0], scan)
    ensures var s := Run(h + Survivors(raws));
            && s.rotation == scan.rotation && s.frequency == scan.frequency
            && s.seconds == scan.seconds && s.fraction == scan.fraction
            && s.count == |Arrived(raws, scan)|
            && (s.complete <==> |Arrived(raws, scan)| == PACKETS_PER_REV)
            && (forall k: nat :: k < PACKETS_PER_REV ==>
                  if k in Arrived(raws, scan) then BlockHolds(s, k, Cut(scan, k)) else BlockBlank(s, k))
            && (s.complete ==> s.ranges == scan.ranges && s.intensities == scan.intensities)
  {
    var g := h + Survivors(raws);
    CollectDelivery(h, raws, scan);
    RunExplained(g);
    RunCounts(g);
    assert Positions(g) == Arrived(raws, scan);
    forall k: nat | k < PACKETS_PER_REV
      ensures if k in Arrived(raws, scan) then BlockHolds(Run(g), k, Cut(scan, k)) else BlockBlank(Run(g), k)
      ensures k == 0 ==> HeaderOf(Run(g), Cut(scan, 0))
    {
      CollectedBlock(g, scan, Arrived(raws, scan), k);
    }
    assert HeaderOf(Run(g), Cut(scan, 0));
    if Run(g).complete {
      CollectedScan(g, scan, Arrived(raws, scan));
    }
  }
}
