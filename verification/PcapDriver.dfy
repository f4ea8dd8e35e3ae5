/** The PCAP driver: FULL polls over a capture file that starts over at its end. */
module PcapDriver {
  import opened Outcomes
  import opened M360Packet
  import opened FullScanAssembler
  import opened AssemblerRuns
  import opened ScanDelivery
  import opened UdpReceiver
  import opened LaserScan
  import opened RosDriver

  /** The payloads are consecutive ones of the file, wrapping around at its end. */
  ghost predicate ReadFrom(payloads: seq<seq<byte>>, file: seq<seq<byte>>, start: nat) {
    (file == [] ==> payloads == []) &&
    forall i :: 0 <= i < |payloads| ==> payloads[i] == file[(start + i) % |file|]
  }

  /** What follows some payloads is read from where they end. */
  lemma ReadFromTail(payloads: seq<seq<byte>>, file: seq<seq<byte>>, start: nat, n: nat)
    requires ReadFrom(payloads, file, start) && n <= |payloads|
    ensures ReadFrom(payloads[n..], file, start + n)
  {
  }

  /** Where the sniffer is after `j` passes of the loop; one pass in each round restarts the file. */
  function PositionAfter(file: seq<seq<byte>>, position: nat, j: nat): (r: nat)
    requires position <= |file|
    ensures r <= |file|
  {
    if j == 0 then position
    else
      var before := PositionAfter(file, position, j - 1);
      if before < |file| then before + 1 else 0
  }

  /** What those passes have read. */
  function ReadAfter(file: seq<seq<byte>>, position: nat, j: nat): seq<seq<byte>>
    requires position <= |file|
  {
    if j == 0 then []
    else
      var before := PositionAfter(file, position, j - 1);
      ReadAfter(file, position, j - 1) + if before < |file| then [file[before]] else []
  }

  ghost predicate FullAfter(file: seq<seq<byte>>, position: nat, j: nat)
    requires position <= |file|
  {
    Run(Survivors(ReadAfter(file, position, j))).complete
  }

  /** Some number of passes that the node is still granted completes a revolution. */
  ghost predicate FullInTime(file: seq<seq<byte>>, position: nat, okLeft: nat)
    requires position <= |file|
  {
    exists j: nat :: j <= okLeft && FullAfter(file, position, j)
  }

  ghost predicate NotFullBefore(file: seq<seq<byte>>, position: nat, j: nat)
    requires position <= |file|
  {
    forall i: nat :: i < j ==> !FullAfter(file, position, i)
  }

  lemma NotFullYet(file: seq<seq<byte>>, position: nat, j: nat)
    requires position <= |file| && NotFullBefore(file, position, j) && !FullAfter(file, position, j)
    ensures NotFullBefore(file, position, j + 1)
  {
  }

  lemma FullOrNot(file: seq<seq<byte>>, position: nat, j: nat, okLeft: nat)
    requires position <= |file| && NotFullBefore(file, position, j) && j <= okLeft
    requires FullAfter(file, position, j) || j == okLeft
    ensures FullInTime(file, position, okLeft) <==> FullAfter(file, position, j)
  {
    hide FullAfter;
  }

  lemma NothingYet(file: seq<seq<byte>>, position: nat)
    requires position <= |file|
    ensures Survivors([]) == [] && OnlyAtEnd([]) && NotFullBefore(file, position, 0)
  {
  }

  class PcapDriver {
    const env: Environment
    const file: seq<seq<byte>>
    var position: nat
    var packetsReceived: nat
    var invalidPackets: nat
    var messagesPublished: nat
    var discardedRevolutions: nat

    /** Every payload read, and everything published. */
    ghost var payloads: seq<seq<byte>>
    ghost var published: seq<Publication>

    /** The payloads read so far, and where the sniffer is. */
    ghost predicate Reading()
      reads this
    {
      && position <= |file|
      && (file != [] ==> position % |file| == (FirstPosition() + |payloads|) % |file|)
      && ReadFrom(payloads, file, FirstPosition())
    }

    /** Every payload is counted once, as a packet if it decodes and as invalid if not. */
    ghost predicate Counted()
      reads this
    {
      && Reading()
      && packetsReceived == |Survivors(payloads)|
      && packetsReceived + invalidPackets == |payloads|
    }

    ghost predicate Valid()
      reads this
    {
      && Counted()
      && messagesPublished == |published|
      && discardedRevolutions == Discards(published)
      && AllSound(published)
    }

    /** The constructor has already taken the first packet, for its timestamp. */
    function FirstPosition(): nat {
      Min(1, |file|)
    }

    /** The payloads are those of the file from its second packet on, which starts over at its end. */
    lemma PayloadsAre(i: nat)
      requires Reading() && i < |payloads|
      ensures file != [] && payloads[i] == file[(1 + i) % |file|]
    {
    }

    constructor (env: Environment, file: seq<seq<byte>>)
      ensures position == if file == [] then 0 else 1
      ensures Valid() && this.env == env && this.file == file && payloads == [] && published == []
    {
      this.env, this.file, position := env, file, Min(1, |file|);
      packetsReceived, invalidPackets, messagesPublished, discardedRevolutions := 0, 0, 0, 0;
      payloads, published := [], [];
    }

    /** One payload: counted, and assembled if it is a packet. */
    method Accept(payload: seq<byte>, assembler: FullScanAssembler)
      requires assembler.Valid()
      modifies this`packetsReceived, this`invalidPackets,
               assembler, assembler.received, assembler.ranges, assembler.intensities
      ensures assembler.Valid() && assembler.history == old(assembler.history) + Survivor(payload)
      ensures packetsReceived + invalidPackets == old(packetsReceived + invalidPackets) + 1
      ensures packetsReceived == old(packetsReceived) + |Survivor(payload)|
    {
      if |payload| != PKT_LEN {
        invalidPackets := invalidPackets + 1;
        return;
      }
      var raw := new byte[PKT_LEN](i requires 0 <= i < PKT_LEN => payload[i]);
      assert raw[..] == payload;
      var packet := Construct(raw);
      match packet {
        case Ok(p) =>
          packetsReceived := packetsReceived + 1;
          var _ := assembler.AddPacket(p);
        case Err(_) =>
          invalidPackets := invalidPackets + 1;
      }
    }

    /** The next packet of the file, or nothing at its end, in which case the file starts over. */
    method NextPacket() returns (payload: Option<seq<byte>>)
      requires Reading()
      modifies this`position, this`payloads
      ensures Reading()
      ensures payload == if old(position) < |file| then Some(file[old(position)]) else None
      ensures position == if old(position) < |file| then old(position) + 1 else 0
      ensures position == PositionAfter(file, old(position), 1)
      ensures payloads == old(payloads) + if payload.Some? then [payload.value] else []
    {
      if position < |file| {
        payload := Some(file[position]);
        ModStep(position, FirstPosition() + |payloads|, |file|);
        position := position + 1;
        payloads := payloads + [payload.value];
      } else {
        payload := None;
        position := 0;
      }
    }

    /** The body of the loop: `taken` is what was read, if anything. */
    method CollectPayload(assembler: FullScanAssembler) returns (ghost taken: Option<seq<byte>>)
      requires Counted() && assembler.Valid()
      modifies this`packetsReceived, this`invalidPackets, this`position, this`payloads,
               assembler, assembler.received, assembler.ranges, assembler.intensities
      ensures Counted() && assembler.Valid()
      ensures taken == if old(position) < |file| then Some(file[old(position)]) else None
      ensures position == PositionAfter(file, old(position), 1)
      ensures taken.None? ==> payloads == old(payloads) && assembler.history == old(assembler.history)
      ensures taken.Some? ==> payloads == old(payloads) + [taken.value]
                              && assembler.history == old(assembler.history) + Survivor(taken.value)
    {
      hide FullScanAssembler.Valid, ReadFrom, Survivors, Survivor;
      var payload := NextPacket();
      if payload.Some? {
        SurvivorsSnoc(old(payloads), payload.value);
        Accept(payload.value, assembler);
      } else {
        assert payloads == old(payloads);
      }
      return payload;
    }

    method CollectRevolution(assembler: FullScanAssembler) returns (ok: bool)
      requires Counted() && assembler.Valid() && assembler.history == []
      modifies this`packetsReceived, this`invalidPackets, this`position, this`payloads, env,
               assembler, assembler.received, assembler.ranges, assembler.intensities
      ensures Counted() && assembler.Valid()
      ensures old(payloads) <= payloads
      ensures assembler.history == Survivors(payloads[|old(payloads)|..])
      ensures OnlyAtEnd(assembler.history)
      ensures !ok ==> env.okLeft == 0
      ensures ok ==> assembler.complete
      ensures env.okLeft <= old(env.okLeft)
      ensures Run(assembler.history).complete <==> FullInTime(file, old(position), old(env.okLeft))
    {
      hide FullScanAssembler.Valid, ReadFrom, OnlyAtEnd, Survivors, Run, NotFullBefore, FullInTime;
      ghost var first, j: nat := position, 0;
      NothingYet(file, position);
      assembler.ShowsRun();
      ghost var read: seq<seq<byte>> := [];
      ok := env.RosOk();
      while ok && !assembler.complete
        invariant Counted() && assembler.Valid()
        invariant payloads == old(payloads) + read
        invariant assembler.history == Survivors(read) && OnlyAtEnd(assembler.history)
        invariant assembler.complete <==> Run(assembler.history).complete
        invariant env.okLeft + (if ok then 1 else 0) == old(env.okLeft) - j
        invariant position == PositionAfter(file, first, j) && read == ReadAfter(file, first, j)
        invariant NotFullBefore(file, first, j)
        invariant !ok ==> env.okLeft == 0
        decreases env.okLeft, ok
      {
        NotFullYet(file, first, j);
        ghost var taken := CollectPayload(assembler);
        assembler.ShowsRun();
        if taken.Some? {
          SurvivorsSnoc(read, taken.value);
          OnlyAtEndSnoc(Survivors(read), taken.value);
          read := read + [taken.value];
        }
        j := j + 1;
        ok := env.RosOk();
      }
      FullOrNot(file, first, j, old(env.okLeft));
      assert payloads[|old(payloads)|..] == read;
    }

    method Publish(ghost p: Publication, discarded: nat)
      requires Valid() && Sound(p) && p.FullScan? && discarded == Discarded(p)
      modifies this`messagesPublished, this`discardedRevolutions, this`published
      ensures Valid() && published == old(published) + [p]
      ensures discardedRevolutions == old(discardedRevolutions) + discarded
    {
      hide Sound, AllSound, Discards, Run, Survivors, ReadFrom;
      PublishedSnoc(published, p);
      if discarded > 0 {
        discardedRevolutions := discardedRevolutions + discarded;
      }
      published := published + [p];
      messagesPublished := messagesPublished + 1;
    }

    /**
     One FULL poll: always publishes, and the scan is complete exactly if some number of passes
     completes it that the node is still granted.
     */
    method PollFullPcap()
      requires Valid()
      modifies this, env
      ensures Valid()
      ensures old(payloads) <= payloads
      ensures |published| == |old(published)| + 1 && old(published) <= published
      ensures env.okLeft <= old(env.okLeft)
      ensures var p := published[|old(published)|];
              && p.FullScan?
              && p.packets == Survivors(payloads[|old(payloads)|..])
              && (p.shutDown ==> env.okLeft == 0)
              && (Run(p.packets).complete <==> FullInTime(file, old(position), old(env.okLeft)))
              && discardedRevolutions == old(discardedRevolutions) + Run(p.packets).discarded
              && Reports(p.message, Run(p.packets).ranges, Run(p.packets).intensities, Run(p.packets).frequency)
      ensures ReadFrom(payloads[|old(payloads)|..], file, FirstPosition() + |old(payloads)|)
    {
      hide FullScanAssembler.Valid, Survivors, Run, Reports, OnlyAtEnd, AllSound, Discards, FullInTime;
      var assembler := new FullScanAssembler();
      var ok := CollectRevolution(assembler);
      ReadFromTail(payloads, file, FirstPosition(), |old(payloads)|);
      assembler.ShowsRun();
      var message := BuildMessage(assembler.ranges[..], assembler.intensities[..], assembler.frequency);
      Publish(FullScan(message, assembler.history, !ok), assembler.discarded);
    }

    /**
     The main loop in FULL mode: every packet read in the run goes into exactly one scan, in order,
     and only the last scan can be incomplete.
     */
    method RunFull()
      requires Valid() && published == [] && payloads == []
      modifies this, env
      ensures Valid() && env.okLeft == 0
      ensures Ended(published, payloads) && AllPackets(published) == Survivors(payloads)
      ensures AllOfType(published, DriverConfig.FULL)
      ensures packetsReceived == |Survivors(payloads)| && packetsReceived + invalidPackets == |payloads|
      ensures messagesPublished == |published|
    {
      hide Survivors, Run, AllSound, Discards, FullInTime, ReadFrom, AllPackets, Steady, Ended;
      NothingPublished();
      SteadyPackets(published, payloads);
      var ok := env.RosOk();
      while ok
        invariant Valid() && (!ok ==> env.okLeft == 0)
        invariant ok ==> Steady(published, payloads)
        invariant Ended(published, payloads) && AllPackets(published) == Survivors(payloads)
        invariant AllOfType(published, DriverConfig.FULL)
        decreases env.okLeft, ok
      {
        ghost var before, read := published, payloads;
        PollFullPcap();
        FullStep(before, read, published, payloads, env.okLeft > 0);
        OneMore(before, published, DriverConfig.FULL);
        ok := env.RosOk();
      }
    }
  }

  lemma ModStep(a: nat, b: nat, n: nat)
    requires n > 0 && a % n == b % n && a < n
    ensures a == b % n && (a + 1) % n == (b + 1) % n
  {
    var q := b / n;
    ModOf(0, a, n);
    ModNext(0, a, n);
    ModNext(q, a, n);
    assert b == n * q + a;
    assert b + 1 == n * q + a + 1;
  }

  lemma ModNext(q: nat, a: nat, n: nat)
    requires a < n
    ensures (n * q + a + 1) % n == if a + 1 == n then 0 else a + 1
  {
    if a + 1 == n {
      assert n * (q + 1) == n * q + n;
      ModOf(q + 1, 0, n);
    } else {
      ModOf(q, a + 1, n);
    }
  }

  lemma ModOf(q: nat, r: nat, n: nat)
    requires r < n
    ensures (n * q + r) % n == r
  {
    var x := n * q + r;
    assert x == n * (x / n) + x % n;
    if x / n < q {
      assert n * (q - x / n) >= n by { Multiple(n, q - x / n); }
    } else if x / n > q {
      assert n * (x / n - q) >= n by { Multiple(n, x / n - q); }
    }
  }

  lemma Multiple(n: nat, k: int)
    requires k >= 1
    ensures n * k >= n
  {
  }

  // ----- Replaying the capture -----

  /** What a poll has read of the capture until it was read through, or the poll was over. */
  function FirstPass(seg: seq<seq<byte>>, file: seq<seq<byte>>): seq<seq<byte>> {
    seg[..Min(|file|, |seg|)]
  }

  lemma ModPeriod(a: nat, n: nat)
    requires n > 0
    ensures (a + n) % n == a % n
  {
    assert a + n == n * (a / n + 1) + a % n;
    ModOf(a / n + 1, a % n, n);
  }

  /** Restarting the file makes every later payload one of the first pass. */
  lemma {:induction false} Recurs(seg: seq<seq<byte>>, file: seq<seq<byte>>, start: nat, i: nat)
    requires ReadFrom(seg, file, start) && i < |seg|
    ensures seg[i] in FirstPass(seg, file)
  {
    if i < |file| {
      assert FirstPass(seg, file)[i] == seg[i];
    } else {
      ModPeriod(start + i - |file|, |file|);
      Recurs(seg, file, start, i - |file|);
    }
  }

  lemma {:induction false} SurvivorFrom(raws: seq<seq<byte>>, p: Packet)
    requires p in Survivors(raws)
    ensures exists i :: 0 <= i < |raws| && Survivor(raws[i]) == [p]
  {
    var last := |raws| - 1;
    if p in Survivors(raws[..last]) {
      SurvivorFrom(raws[..last], p);
      var i :| 0 <= i < last && Survivor(raws[..last][i]) == [p];
      assert Survivor(raws[i]) == [p];
    } else {
      assert Survivor(raws[last]) == [p];
    }
  }

  lemma {:induction false} SurvivorKept(raws: seq<seq<byte>>, raw: seq<byte>, p: Packet)
    requires raw in raws && Survivor(raw) == [p]
    ensures p in Survivors(raws)
  {
    var last := |raws| - 1;
    if raw == raws[last] {
      assert Survivors(raws)[|Survivors(raws)| - 1] == p;
    } else {
      SurvivorKept(raws[..last], raw, p);
    }
  }

  /** The packets of a poll are those of its first pass, and then only such as were among them. */
  lemma {:induction false} PassThenReplay(seg: seq<seq<byte>>, file: seq<seq<byte>>, start: nat)
    returns (more: seq<Packet>)
    requires ReadFrom(seg, file, start)
    ensures Survivors(seg) == Survivors(FirstPass(seg, file)) + more
    ensures forall i :: 0 <= i < |more| ==> more[i] in Survivors(FirstPass(seg, file))
    ensures |seg| <= |file| ==> more == []
  {
    hide Survivor;
    var first := FirstPass(seg, file);
    var rest := seg[|first|..];
    more := Survivors(rest);
    assert seg == first + rest;
    SurvivorsConcat(first, rest);
    forall i | 0 <= i < |more|
      ensures more[i] in Survivors(first)
    {
      SurvivorFrom(rest, more[i]);
      var k :| 0 <= k < |rest| && Survivor(rest[k]) == [more[i]];
      Recurs(seg, file, start, |first| + k);
      SurvivorKept(first, rest[k], more[i]);
    }
  }

  /** Some prefix of a history has filled all twenty positions. */
  ghost predicate EverComplete(h: seq<Packet>) {
    exists n: nat :: 0 < n <= |h| && |Positions(h[..n])| == PACKETS_PER_REV
  }

  lemma EverCompleteExactly(h: seq<Packet>)
    ensures EverComplete(h) <==> exists n: nat :: n <= |h| && Run(h[..n]).complete
  {
    hide Run, Positions;
    forall n: nat | 0 < n <= |h|
      ensures Run(h[..n]).complete <==> |Positions(h[..n])| == PACKETS_PER_REV
    {
      RunCounts(h[..n]);
    }
    EmptyIncomplete(h);
  }

  lemma EmptyIncomplete(h: seq<Packet>)
    ensures !Run(h[..0]).complete
  {
  }

  /**
   When a FULL poll over a capture completes. Over a capture whose packets are ordered rightly,
   its scan is complete if and only if some prefix of what it read on the first pass through the
   file has filled all twenty positions: replays add nothing, however often the file starts over.
   Otherwise the poll has been ended by the shutdown.
   */
  lemma {:induction false} CaptureCompletes(
    p: Publication, seg: seq<seq<byte>>, file: seq<seq<byte>>, start: nat, t: seq<int>)
    requires p.FullScan? && Sound(p)
    requires p.packets == Survivors(seg) && ReadFrom(seg, file, start)
    requires Replayable(Survivors(FirstPass(seg, file)), t)
    ensures Run(p.packets).complete <==> EverComplete(Survivors(FirstPass(seg, file)))
    ensures !EverComplete(Survivors(FirstPass(seg, file))) ==> p.shutDown
  {
    hide Run, Survivors, FirstPass, Replayable, EverComplete;
    var h := Survivors(FirstPass(seg, file));
    var more := PassThenReplay(seg, file, start);
    ReplayChangesNothing(h, t, more);
    EverCompleteExactly(h);
    assert h[..|h|] == h && p.packets[..|p.packets|] == p.packets;
    if n: nat :| n <= |h| && Run(h[..n]).complete {
      assert p.packets[..n] == h[..n];
    }
  }

  /**
   In particular: once a poll has read a capture through without ever having had all twenty
   positions, only the shutdown ends it, and it publishes what the first pass has left.
   */
  lemma {:induction false} IncompleteCaptureNeverCompletes(
    p: Publication, seg: seq<seq<byte>>, file: seq<seq<byte>>, start: nat, t: seq<int>)
    requires p.FullScan? && Sound(p)
    requires p.packets == Survivors(seg) && ReadFrom(seg, file, start) && |seg| >= |file|
    requires Replayable(Survivors(seg[..|file|]), t) && !EverComplete(Survivors(seg[..|file|]))
    ensures p.shutDown && !Run(p.packets).complete
    ensures Run(p.packets) == Run(Survivors(seg[..|file|]))
  {
    hide Run, Survivors, Replayable, EverComplete;
    CaptureCompletes(p, seg, file, start, t);
    var more := PassThenReplay(seg, file, start);
    ReplayChangesNothing(Survivors(seg[..|file|]), t, more);
  }
}
