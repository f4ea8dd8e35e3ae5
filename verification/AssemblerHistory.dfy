/**
 What the assembler holds after an arbitrary history of packets, said without its fields:
 which packet opened the active revolution, and which packet first filled each position since.
 */
module AssemblerHistory {
  import opened M360Packet
  import opened FullScanAssembler

  // ----- A reading of the history by rotation counters and positions alone -----

  /** The index of the packet that opened the active revolution. */
  ghost function Start(h: seq<Packet>): (i: nat)
    requires |h| > 0
    ensures i < |h|
  {
    var last := |h| - 1;
    if last == 0 then 0
    else
      var before := Start(h[..last]);
      if Delta(h[last].rotation, h[before].rotation) > 0 then last else before
  }

  ghost function Active(h: seq<Packet>): u16
    requires |h| > 0
  {
    h[Start(h)].rotation
  }

  /** Packet `j` belongs to the active revolution and covers position `k`. */
  ghost predicate Fills(h: seq<Packet>, k: nat, j: nat)
    requires |h| > 0
  {
    Start(h) <= j < |h| && h[j].rotation == Active(h) && h[j].Position() == k
  }

  ghost predicate Filled(h: seq<Packet>, k: nat)
    requires |h| > 0
  {
    exists j: nat :: Fills(h, k, j)
  }

  ghost predicate FirstFill(h: seq<Packet>, k: nat, j: nat)
    requires |h| > 0
  {
    Fills(h, k, j) && forall i: nat :: i < j ==> !Fills(h, k, i)
  }

  /** The 115 entries of position `k`. */
  function Block<T>(all: seq<T>, k: nat): (b: seq<T>)
    requires |all| == POINTS_PER_REV && k < PACKETS_PER_REV
    ensures |b| == CHANNELS
  {
    all[CHANNELS * k..CHANNELS * k + CHANNELS]
  }

  ghost predicate BlockHolds(s: State, k: nat, p: Packet)
    requires k < PACKETS_PER_REV
  {
    Block(s.ranges, k) == p.ranges && Block(s.intensities, k) == p.intensities
  }

  ghost predicate BlockBlank(s: State, k: nat)
    requires k < PACKETS_PER_REV
  {
    && Block(s.ranges, k) == seq(CHANNELS, _ => NoObject)
    && Block(s.intensities, k) == seq(CHANNELS, _ => 0)
  }

  ghost predicate HeaderOf(s: State, p: Packet) {
    s.frequency == p.frequency && s.seconds == p.seconds && s.fraction == p.fraction
  }

  /** The fields are exactly what the history says they should be. */
  ghost predicate Explains(h: seq<Packet>, s: State)
    requires |h| > 0
  {
    && s.hasRotation
    && s.rotation == Active(h)
    && (forall k: nat :: k < PACKETS_PER_REV ==> (s.received[k] <==> Filled(h, k)))
    && (forall k: nat, j: nat :: k < PACKETS_PER_REV && FirstFill(h, k, j) ==> BlockHolds(s, k, h[j]))
    && (forall k: nat :: k < PACKETS_PER_REV && !Filled(h, k) ==> BlockBlank(s, k))
    && (forall j: nat :: FirstFill(h, 0, j) ==> HeaderOf(s, h[j]))
    && (!Filled(h, 0) ==> HeaderOf(s, h[Start(h)]))
  }

  // ----- The four things a packet can do -----

  lemma {:induction false} StartSnoc(h: seq<Packet>, p: Packet)
    requires |h| > 0
    ensures Start(h + [p]) == if Delta(p.rotation, Active(h)) > 0 then |h| else Start(h)
  {
    assert (h + [p])[..|h|] == h;
  }

  lemma {:induction false} FillsSnoc(h: seq<Packet>, p: Packet, k: nat, j: nat)
    requires |h| > 0
    ensures Fills(h + [p], k, j) <==>
            if j == |h| then p.Position() == k && Delta(p.rotation, Active(h)) >= 0
            else Fills(h, k, j) && Delta(p.rotation, Active(h)) <= 0
  {
    StartSnoc(h, p);
    if Fills(h + [p], k, j) {
      assert j <= |h|;
    }
  }

  lemma {:induction false} BlockOfSplice<T>(all: seq<T>, k: nat, j: nat, b: seq<T>)
    requires |all| == POINTS_PER_REV && k < PACKETS_PER_REV && j < PACKETS_PER_REV && |b| == CHANNELS
    ensures Block(Splice(all, CHANNELS * j, b), k) == if k == j then b else Block(all, k)
  {
  }

  lemma {:induction false} StoreBlocks(s: State, p: Packet, k: nat)
    requires k < PACKETS_PER_REV
    ensures k == p.Position() ==> BlockHolds(Store(s, p), k, p)
    ensures k != p.Position() ==> Block(Store(s, p).ranges, k) == Block(s.ranges, k)
    ensures k != p.Position() ==> Block(Store(s, p).intensities, k) == Block(s.intensities, k)
  {
    BlockOfSplice(s.ranges, k, p.Position(), p.ranges);
    BlockOfSplice(s.intensities, k, p.Position(), p.intensities);
  }

  lemma {:induction false} BeginBlank(s: State, p: Packet, k: nat)
    requires k < PACKETS_PER_REV
    ensures BlockBlank(Begin(s, p), k)
  {
  }

  /** A packet that opens a revolution explains the new state on its own. */
  lemma {:induction false} ExplainsOpening(h: seq<Packet>, s: State, p: Packet)
    requires Opens(s, p)
    requires Start(h + [p]) == |h|
    ensures Explains(h + [p], Add(s, p))
  {
    var h' := h + [p];
    forall k: nat, j: nat
      ensures Fills(h', k, j) <==> j == |h| && k == p.Position()
    {
    }
    assert Fills(h', p.Position(), |h|);
    forall k: nat | k < PACKETS_PER_REV
      ensures if k == p.Position() then BlockHolds(Add(s, p), k, p) else BlockBlank(Add(s, p), k)
    {
      BeginBlank(s, p, k);
      StoreBlocks(Begin(s, p), p, k);
    }
  }

  /** Nothing about the active revolution changes when the packet is stale. */
  lemma {:induction false} ExplainsStale(h: seq<Packet>, s: State, p: Packet)
    requires |h| > 0 && Explains(h, s) && Stale(s, p)
    ensures Explains(h + [p], s)
  {
    var h' := h + [p];
    StartSnoc(h, p);
    forall k: nat, j: nat
      ensures Fills(h', k, j) <==> Fills(h, k, j)
    {
      FillsSnoc(h, p, k, j);
    }
    SameFills(h, h');
  }

  /** A second packet for a position is not its first. */
  lemma {:induction false} ExplainsDuplicate(h: seq<Packet>, s: State, p: Packet)
    requires |h| > 0 && Explains(h, s) && Duplicate(s, p)
    ensures Explains(h + [p], s)
  {
    var h' := h + [p];
    StartSnoc(h, p);
    forall k: nat, j: nat
      ensures Fills(h', k, j) <==> Fills(h, k, j) || (j == |h| && k == p.Position())
    {
      FillsSnoc(h, p, k, j);
    }
    SameFirstFills(h, h', p.Position());
  }

  lemma {:induction false} SameFills(h: seq<Packet>, h': seq<Packet>)
    requires |h| > 0 && |h'| > 0
    requires forall k: nat, j: nat :: Fills(h', k, j) <==> Fills(h, k, j)
    ensures forall k: nat :: Filled(h', k) <==> Filled(h, k)
    ensures forall k: nat, j: nat :: FirstFill(h', k, j) <==> FirstFill(h, k, j)
  {
  }

  lemma {:induction false} SameFirstFills(h: seq<Packet>, h': seq<Packet>, again: nat)
    requires |h| > 0 && |h'| > 0 && Filled(h, again)
    requires forall k: nat, j: nat :: Fills(h', k, j) <==> Fills(h, k, j) || (j == |h| && k == again)
    ensures forall k: nat :: Filled(h', k) <==> Filled(h, k)
    ensures forall k: nat, j: nat :: FirstFill(h', k, j) <==> FirstFill(h, k, j)
  {
    var j0: nat :| Fills(h, again, j0);
    assert Fills(h', again, j0) && j0 < |h|;
  }

  /** The first packet for a position is stored there and nowhere else. */
  lemma {:induction false} ExplainsAccept(h: seq<Packet>, s: State, p: Packet)
    requires |h| > 0 && Explains(h, s)
    requires !Opens(s, p) && !Stale(s, p) && !Duplicate(s, p)
    ensures Explains(h + [p], Store(s, p))
  {
    var h' := h + [p];
    var s' := Store(s, p);
    var q := p.Position();
    StartSnoc(h, p);
    forall k: nat, j: nat
      ensures Fills(h', k, j) <==> Fills(h, k, j) || (j == |h| && k == q)
    {
      FillsSnoc(h, p, k, j);
    }
    assert Fills(h', q, |h|);
    assert !Filled(h, q);
    forall k: nat, j: nat
      ensures FirstFill(h', k, j) <==> if k == q then j == |h| else FirstFill(h, k, j)
    {
    }
    forall k: nat
      ensures Filled(h', k) <==> k == q || Filled(h, k)
    {
      if Filled(h, k) {
        var j: nat :| Fills(h, k, j);
        assert Fills(h', k, j);
      }
    }
    forall k: nat | k < PACKETS_PER_REV
      ensures k == q ==> BlockHolds(s', k, p)
      ensures k != q && BlockBlank(s, k) ==> BlockBlank(s', k)
      ensures k != q ==> forall r: Packet :: BlockHolds(s, k, r) ==> BlockHolds(s', k, r)
    {
      StoreBlocks(s, p, k);
    }
  }

  /**
   History refinement. After any history, position `k` holds the points of the first packet
   for `k` since the active revolution was opened, and is blank if there was none; the
   header fields are those of the first ENC = 0 packet, or else of the opening packet.
   */
  lemma {:induction false} RunExplained(h: seq<Packet>)
    requires |h| > 0
    ensures Explains(h, Run(h))
  {
    var g, p := h[..|h| - 1], h[|h| - 1];
    assert h == g + [p];
    RunSnoc(g, p);
    if g == [] {
      ExplainsOpening(g, Initial(), p);
    } else {
      RunExplained(g);
      StartSnoc(g, p);
      var s := Run(g);
      if Opens(s, p) {
        ExplainsOpening(g, s, p);
      } else if Stale(s, p) {
        ExplainsStale(g, s, p);
      } else if Duplicate(s, p) {
        ExplainsDuplicate(g, s, p);
      } else {
        ExplainsAccept(g, s, p);
      }
    }
  }

  lemma {:induction false} FirstFillExists(h: seq<Packet>, k: nat, j: nat)
    requires |h| > 0 && Fills(h, k, j)
    ensures exists i: nat :: FirstFill(h, k, i)
  {
    if !FirstFill(h, k, j) {
      var i: nat :| i < j && Fills(h, k, i);
      FirstFillExists(h, k, i);
    }
  }
}
