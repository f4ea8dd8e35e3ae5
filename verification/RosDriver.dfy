/** The UDP driver: polling whole revolutions or single packets, counting, publishing. */
module RosDriver {
  import opened Outcomes
  import opened M360Packet
  import opened FullScanAssembler
  import opened AssemblerHistory
  import opened AssemblerRuns
  import opened ScanDelivery
  import opened CallBudget
  import opened PollFate
  import opened ReceiverSocket
  import opened UdpReceiver
  import opened LaserScan
  import DriverConfig

  /**
   A published message and what it was made from: the packets of the poll, and whether the
   poll was ended by the shutdown of the node rather than by a complete revolution.
   */
  datatype Publication =
    | FullScan(message: Message, packets: seq<Packet>, shutDown: bool)
    | SinglePacket(message: Message, packet: Packet)

  /** The poll has stopped as soon as the revolution was complete. */
  ghost predicate OnlyAtEnd(h: seq<Packet>) {
    forall n: nat :: n < |h| ==> !Run(h[..n]).complete
  }

  /** A stretch of packets of which no beginning, and not the whole, completes a revolution. */
  ghost predicate Unfinished(h: seq<Packet>) {
    OnlyAtEnd(h) && !Run(h).complete
  }

  lemma OnlyAtEndSnoc(h: seq<Packet>, raw: seq<byte>)
    requires OnlyAtEnd(h) && !Run(h).complete
    ensures OnlyAtEnd(h + Survivor(raw))
  {
    var longer := h + Survivor(raw);
    forall n: nat | n < |longer|
      ensures !Run(longer[..n]).complete
    {
      assert longer[..n] == h[..n];
      assert h[..|h|] == h;
    }
  }

  /** What every published message satisfies. */
  ghost predicate Sound(p: Publication) {
    match p
    case FullScan(m, h, shutDown) =>
      && Reports(m, Run(h).ranges, Run(h).intensities, Run(h).frequency)
      && (shutDown || Run(h).complete)
      && OnlyAtEnd(h)
    case SinglePacket(m, packet) =>
      Reports(m, packet.ranges, packet.intensities, packet.frequency)
  }

  ghost predicate AllSound(ps: seq<Publication>) {
    forall i :: 0 <= i < |ps| ==> Sound(ps[i])
  }

  /** The revolutions that were discarded on the way to one publication, and to all of them. */
  ghost function Discarded(p: Publication): nat {
    match p
    case FullScan(_, h, _) => Run(h).discarded
    case SinglePacket(_, _) => 0
  }

  ghost function Discards(ps: seq<Publication>): nat {
    if ps == [] then 0 else Discards(ps[..|ps| - 1]) + Discarded(ps[|ps| - 1])
  }

  lemma PublishedSnoc(ps: seq<Publication>, p: Publication)
    requires AllSound(ps) && Sound(p)
    ensures AllSound(ps + [p]) && Discards(ps + [p]) == Discards(ps) + Discarded(p)
  {
    hide Sound, Discarded;
    assert (ps + [p])[..|ps|] == ps;
  }

  /** The history is what survived decoding of the datagrams delivered since `before`. */
  ghost predicate Collected(before: seq<seq<byte>>, delivered: seq<seq<byte>>, history: seq<Packet>) {
    before <= delivered && history == Survivors(delivered[|before|..])
  }

  lemma CollectedNothing(delivered: seq<seq<byte>>)
    ensures Collected(delivered, delivered, [])
  {
    assert delivered[|delivered|..] == [];
  }

  lemma CollectedSnoc(before: seq<seq<byte>>, delivered: seq<seq<byte>>, history: seq<Packet>, raw: seq<byte>)
    requires Collected(before, delivered, history)
    ensures Collected(before, delivered + [raw], history + Survivor(raw))
  {
    SurvivorsSnoc(delivered[|before|..], raw);
    assert (delivered + [raw])[|before|..] == delivered[|before|..] + [raw];
  }

  /** The poll stands before pass `j`, its own loop having asked `ok` already, and nothing is complete yet. */
  ghost predicate AtHead(s: Start, j: nat, now: Start, ok: bool, history: seq<Packet>) {
    && now.world == s.world && now.polls == s.polls + j
    && Walk(s, j) == Some(Left(now.ok + if ok then 1 else 0, now.opens)) && Heads(s, j) == 2
    && history == Survivors(Caught(s, j)) && PendingBefore(s, j) && OnlyAtEnd(history)
    && (!ok ==> now.ok == 0)
  }

  lemma AtFirst(s: Start, now: Start, ok: bool)
    requires s.heads == 2 && now == s.(heads := 1, ok := now.ok)
    requires (ok <==> s.ok > 0) && now.ok == if ok then s.ok - 1 else 0
    ensures AtHead(s, 0, now, ok, [])
  {
  }

  /** One datagram later the poll is at the head of its loop again. */
  lemma AtNext(s: Start, j: nat, before: Start, history: seq<Packet>, m: nat, raw: seq<byte>, now: Start, ok: bool)
    requires AtHead(s, j, before, true, history) && !Run(history).complete && before.heads == 1
    requires Receives(before, m, raw, Left(now.ok + if ok then 1 else 0, now.opens))
    requires now.world == s.world && now.polls == before.polls + m + 1 && (!ok ==> now.ok == 0)
    ensures AtHead(s, j + m + 1, now, ok, history + Survivor(raw))
  {
    hide Walk, Caught, Receives, Heads, Run, Survivors, Survivor, OnlyAtEnd;
    assert !CompleteAt(s, j);
    NextDatagram(s, j, before, m, raw, Left(now.ok + if ok then 1 else 0, now.opens));
    SurvivorsSnoc(Caught(s, j), raw);
    OnlyAtEndSnoc(history, raw);
  }

  lemma AtNever(s: Start, j: nat, before: Start, history: seq<Packet>, m: nat)
    requires AtHead(s, j, before, true, history) && !Run(history).complete && before.heads == 1
    requires GivesUp(before, m)
    ensures Waiting(s) && Unfinished(history)
  {
    hide Walk, Caught, GivesUp, Heads, Run;
    assert !CompleteAt(s, j);
    NoDatagram(s, j, before, m);
    assert EndsWaiting(s, j + m);
  }

  lemma AtEnd(s: Start, j: nat, now: Start, ok: bool, history: seq<Packet>)
    requires AtHead(s, j, now, ok, history)
    ensures Run(history).complete ==> Complete(s)
    ensures !Run(history).complete && !ok ==> Early(s)
    ensures OnlyAtEnd(history)
  {
    hide Walk, Caught, Run;
    assert CompleteAt(s, j) <==> Run(history).complete;
    assert Run(history).complete ==> EndsComplete(s, j);
    assert !Run(history).complete && !ok ==> EndsEarly(s, j);
  }

  class Driver {
    const receiver: UdpReceiver
    var packetsReceived: nat
    var invalidPackets: nat
    var messagesPublished: nat
    var discardedRevolutions: nat

    /** Everything published, in order. */
    ghost var published: seq<Publication>

    /** Every datagram delivered so far is counted once, as a packet if it decodes and as invalid if not. */
    ghost predicate Counted()
      reads this, receiver, receiver.env, receiver.socket
    {
      && receiver.Valid()
      && packetsReceived == |Survivors(receiver.delivered)|
      && packetsReceived + invalidPackets == |receiver.delivered|
    }

    ghost predicate Valid()
      reads this, receiver, receiver.env, receiver.socket
    {
      && Counted()
      && messagesPublished == |published|
      && discardedRevolutions == Discards(published)
      && AllSound(published)
    }

    constructor (receiver: UdpReceiver)
      requires receiver.Valid() && receiver.delivered == []
      ensures Valid() && this.receiver == receiver && published == []
    {
      this.receiver := receiver;
      packetsReceived, invalidPackets, messagesPublished, discardedRevolutions := 0, 0, 0, 0;
      published := [];
    }

    /** Publishing: the counters and the log move together. */
    method Publish(ghost p: Publication, discarded: nat)
      requires Valid() && Sound(p)
      requires discarded == Discarded(p)
      modifies this`messagesPublished, this`discardedRevolutions, this`published
      ensures Valid() && published == old(published) + [p]
      ensures discardedRevolutions == old(discardedRevolutions) + discarded
    {
      hide Sound, AllSound, Discards, Run, Survivors, Accounts, Deliveries, Faults, AllFullLength;
      PublishedSnoc(published, p);
      if discarded > 0 {
        discardedRevolutions := discardedRevolutions + discarded;
      }
      published := published + [p];
      messagesPublished := messagesPublished + 1;
    }

    /**
     Decode one delivered datagram and hand it to the assembler. The packet is counted before
     it is assembled, and assembling cannot throw, so it is counted exactly once.
     */
    method Accept(raw: array<byte>, assembler: FullScanAssembler)
      requires raw.Length == PKT_LEN && assembler.Valid()
      modifies this`packetsReceived, this`invalidPackets,
               assembler, assembler.received, assembler.ranges, assembler.intensities
      ensures assembler.Valid()
      ensures assembler.history == old(assembler.history) + Survivor(raw[..])
      ensures packetsReceived + invalidPackets == old(packetsReceived + invalidPackets) + 1
      ensures packetsReceived == old(packetsReceived) + |Survivor(raw[..])|
    {
      var packet := Construct(raw);
      match packet {
        case Ok(p) =>
          packetsReceived := packetsReceived + 1;
          var _ := assembler.AddPacket(p);
        case Err(_) =>
          invalidPackets := invalidPackets + 1;
      }
    }

    /** The body of the loop of a FULL poll. */
    method CollectDatagram(assembler: FullScanAssembler)
      returns (waiting: bool, ghost raw: seq<byte>, ghost passes: nat)
      requires Counted() && assembler.Valid()
      modifies this`packetsReceived, this`invalidPackets, receiver, receiver.env, receiver.socket,
               assembler, assembler.received, assembler.ranges, assembler.intensities
      ensures Counted() && assembler.Valid()
      ensures receiver.env.okLeft <= old(receiver.env.okLeft)
      ensures waiting ==> receiver.env.okLeft == 0
      ensures waiting ==> receiver.delivered == old(receiver.delivered) && assembler.history == old(assembler.history)
      ensures !waiting ==> receiver.delivered == old(receiver.delivered) + [raw]
      ensures !waiting ==> assembler.history == old(assembler.history) + Survivor(raw)
      ensures !waiting ==>
                Receives(old(receiver.Now(1)), passes, raw, Left(receiver.env.okLeft, receiver.env.opensUsed))
      ensures !waiting ==> receiver.env.pollsUsed == old(receiver.env.pollsUsed) + passes + 1
      ensures waiting ==> GivesUp(old(receiver.Now(1)), passes)
    {
      hide FullScanAssembler.Valid, Accounts, Deliveries, Faults, AllFullLength, Receives, GivesUp, Survivors, Decode;
      var buffer := new byte[PKT_LEN];
      var received;
      received, passes := receiver.ReceiveUdpPacket(buffer);
      raw := buffer[..];
      if !received {
        return true, raw, passes;
      }
      SurvivorsSnoc(old(receiver.delivered), raw);
      Accept(buffer, assembler);
      return false, raw, passes;
    }

    /**
     The loop of a FULL poll. `waiting` means that the node was shut down while waiting for a
     datagram; `ok` is the last answer of `ros::ok()` at the head of the loop.
     */
    method CollectRevolution(assembler: FullScanAssembler) returns (waiting: bool, ok: bool)
      requires Counted() && assembler.Valid() && assembler.history == []
      modifies this`packetsReceived, this`invalidPackets, receiver, receiver.env, receiver.socket,
               assembler, assembler.received, assembler.ranges, assembler.intensities
      ensures Counted() && assembler.Valid()
      ensures Collected(old(receiver.delivered), receiver.delivered, assembler.history)
      ensures OnlyAtEnd(assembler.history)
      ensures waiting ==> Unfinished(assembler.history)
      ensures receiver.env.okLeft <= old(receiver.env.okLeft)
      ensures waiting || !ok ==> receiver.env.okLeft == 0
      ensures !waiting && ok ==> assembler.complete
      ensures old(receiver.env.okLeft) == 0 ==> !waiting && !ok && receiver.delivered == old(receiver.delivered)
      ensures waiting ==> Waiting(old(receiver.Now(2)))
      ensures !waiting && Run(assembler.history).complete ==> Complete(old(receiver.Now(2)))
      ensures !waiting && !Run(assembler.history).complete ==> Early(old(receiver.Now(2)))
    {
      hide Accounts, Deliveries, Faults, AllFullLength, AtHead, Receives, GivesUp, Run, Survivors;
      hide Complete, Early, Waiting, Collected, OnlyAtEnd, FullScanAssembler.Valid;
      ghost var s := receiver.Now(2);
      ghost var j: nat := 0;
      ok := receiver.env.RosOk();
      AtFirst(s, receiver.Now(1), ok);
      CollectedNothing(receiver.delivered);
      assembler.ShowsRun();
      while ok && !assembler.complete
        invariant Counted() && assembler.Valid()
        invariant Collected(old(receiver.delivered), receiver.delivered, assembler.history)
        invariant receiver.env.okLeft <= old(receiver.env.okLeft)
        invariant !ok ==> receiver.env.okLeft == 0
        invariant old(receiver.env.okLeft) == 0 ==> !ok && receiver.delivered == old(receiver.delivered)
        invariant AtHead(s, j, receiver.Now(1), ok, assembler.history)
        invariant assembler.complete <==> Run(assembler.history).complete
        decreases receiver.env.okLeft, ok
      {
        ghost var delivered, history, now := receiver.delivered, assembler.history, receiver.Now(1);
        ghost var raw, passes;
        waiting, raw, passes := CollectDatagram(assembler);
        if waiting {
          AtNever(s, j, now, history, passes);
          return;
        }
        CollectedSnoc(old(receiver.delivered), delivered, history, raw);
        assembler.ShowsRun();
        ok := receiver.env.RosOk();
        AtNext(s, j, now, history, passes, raw, receiver.Now(1), ok);
        j := j + passes + 1;
      }
      AtEnd(s, j, receiver.Now(1), ok, assembler.history);
      return false, ok;
    }

    /**
     One FULL poll. Which of its three ends it comes to is decided by where it starts: nothing is
     published exactly if the shutdown is noticed while waiting for a datagram, an incomplete
     scan exactly if it is noticed at the head of the poll's own loop. A published scan is made
     from exactly the packets that survive decoding among the datagrams of this poll; if none is
     published, these packets complete no revolution.
     */
    method PollFullUdp()
      requires Valid()
      modifies this, receiver, receiver.env, receiver.socket
      ensures Valid()
      ensures old(receiver.delivered) <= receiver.delivered
      ensures receiver.env.okLeft <= old(receiver.env.okLeft)
      ensures published == old(published) <==> Waiting(old(receiver.Now(2)))
      ensures published == old(published) ==>
                receiver.env.okLeft == 0 && Unfinished(Survivors(receiver.delivered[|old(receiver.delivered)|..]))
      ensures published != old(published) ==>
                && |published| == |old(published)| + 1 && old(published) <= published
                && var p := published[|old(published)|];
                && p.FullScan?
                && p.packets == Survivors(receiver.delivered[|old(receiver.delivered)|..])
                && (Run(p.packets).complete <==> Complete(old(receiver.Now(2))))
                && (!Run(p.packets).complete <==> Early(old(receiver.Now(2))))
                && (p.shutDown ==> receiver.env.okLeft == 0)
                && discardedRevolutions == old(discardedRevolutions) + Run(p.packets).discarded
                && Reports(p.message, Run(p.packets).ranges, Run(p.packets).intensities, Run(p.packets).frequency)
      ensures old(receiver.env.okLeft) == 0 ==>
                published != old(published) && receiver.delivered == old(receiver.delivered)
    {
      hide Discards, AllSound, Accounts, Deliveries, Faults, AllFullLength, Complete, Early, Waiting;
      hide FullScanAssembler.Valid, Run, Survivors, Reports, OnlyAtEnd;
      OneFate(receiver.Now(2));
      var assembler := new FullScanAssembler();
      var waiting, ok := CollectRevolution(assembler);
      if waiting {
        return;
      }
      assembler.ShowsRun();
      var message := BuildMessage(assembler.ranges[..], assembler.intensities[..], assembler.frequency);
      Publish(FullScan(message, assembler.history, !ok), assembler.discarded);
    }

    /** One SINGLE poll: a valid packet is published as it is, an invalid one is counted. */
    method PollUdp()
      requires Valid()
      modifies this, receiver, receiver.env, receiver.socket
      ensures Valid()
      ensures receiver.env.okLeft <= old(receiver.env.okLeft)
      ensures receiver.delivered == old(receiver.delivered) ==> published == old(published) && receiver.env.okLeft == 0
      ensures receiver.delivered != old(receiver.delivered) ==>
                && |receiver.delivered| == |old(receiver.delivered)| + 1
                && old(receiver.delivered) <= receiver.delivered
                && |receiver.delivered[|old(receiver.delivered)|]| == PKT_LEN
                && var packet := Decode(receiver.delivered[|old(receiver.delivered)|]);
                if packet.Ok? then
                  && |published| == |old(published)| + 1 && old(published) <= published
                  && published[|old(published)|].SinglePacket?
                  && published[|old(published)|].packet == packet.value
                  && Reports(published[|old(published)|].message,
                             packet.value.ranges, packet.value.intensities, packet.value.frequency)
                else published == old(published)
    {
      hide Discards, AllSound, Accounts, Deliveries, Faults, AllFullLength, Receives, GivesUp, Survivors, Decode;
      var raw := new byte[PKT_LEN];
      var received, _ := receiver.ReceiveUdpPacket(raw);
      if !received {
        return;
      }
      SurvivorsSnoc(old(receiver.delivered), raw[..]);
      var packet := Construct(raw);
      match packet {
        case Err(_) =>
          invalidPackets := invalidPackets + 1;
        case Ok(p) =>
          packetsReceived := packetsReceived + 1;
          var message := BuildMessage(p.ranges, p.intensities, p.frequency);
          Publish(SinglePacket(message, p), 0);
      }
    }

    /**
     The main loop: poll in the configured way until the node is shut down. Every packet of every
     datagram delivered in the run goes into exactly one publication, in order, except those of one
     last poll that the shutdown has ended before they completed a revolution; and only the last
     publication can be an incomplete scan.
     */
    method RunDriver(capture: DriverConfig.CaptureType)
      requires Valid() && published == [] && receiver.delivered == []
      modifies this, receiver, receiver.env, receiver.socket
      ensures Valid() && receiver.env.okLeft == 0
      ensures AllOfType(published, capture)
      ensures Ended(published, receiver.delivered)
      ensures capture == DriverConfig.SINGLE ==> AllPackets(published) == Survivors(receiver.delivered)
      ensures packetsReceived == |Survivors(receiver.delivered)|
      ensures packetsReceived + invalidPackets == |receiver.delivered| && messagesPublished == |published|
    {
      hide Discards, AllSound, Accounts, Deliveries, Faults, AllFullLength, Survivors, Run, Decode, AllPackets;
      hide Complete, Early, Waiting, Steady, Ended;
      NothingPublished();
      var ok := receiver.env.RosOk();
      while ok
        invariant Valid() && AllOfType(published, capture)
        invariant !ok ==> receiver.env.okLeft == 0
        invariant ok || capture == DriverConfig.SINGLE ==> Steady(published, receiver.delivered)
        invariant Ended(published, receiver.delivered)
        decreases receiver.env.okLeft, ok
      {
        ghost var before, delivered := published, receiver.delivered;
        if capture == DriverConfig.FULL {
          PollFullUdp();
          FullStep(before, delivered, published, receiver.delivered, receiver.env.okLeft > 0);
        } else {
          PollUdp();
          SingleStep(before, delivered, published, receiver.delivered);
        }
        OneMore(before, published, capture);
        ok := receiver.env.RosOk();
      }
      SteadyPackets(published, receiver.delivered);
    }
  }

  // ----- Whole runs -----

  /** Whole revolutions if they were asked for, single packets otherwise. */
  ghost predicate AllOfType(ps: seq<Publication>, capture: DriverConfig.CaptureType) {
    forall i :: 0 <= i < |ps| ==> (ps[i].FullScan? <==> capture == DriverConfig.FULL)
  }

  lemma OneMore(before: seq<Publication>, after: seq<Publication>, capture: DriverConfig.CaptureType)
    requires AllOfType(before, capture)
    requires before <= after && |after| <= |before| + 1
    requires after != before ==> (after[|before|].FullScan? <==> capture == DriverConfig.FULL)
    ensures AllOfType(after, capture)
  {
  }

  /** The packets that went into one publication, and into all of them. */
  ghost function PacketsOf(p: Publication): seq<Packet> {
    match p
    case FullScan(_, h, _) => h
    case SinglePacket(_, packet) => [packet]
  }

  ghost function AllPackets(ps: seq<Publication>): seq<Packet> {
    if ps == [] then [] else AllPackets(ps[..|ps| - 1]) + PacketsOf(ps[|ps| - 1])
  }

  lemma AllPacketsSnoc(ps: seq<Publication>, p: Publication)
    ensures AllPackets(ps + [p]) == AllPackets(ps) + PacketsOf(p)
  {
    assert (ps + [p])[..|ps|] == ps;
  }

  ghost predicate CutShort(p: Publication) {
    p.FullScan? && p.shutDown
  }

  /** While the node runs: no scan has been cut short, and every packet has been published once. */
  ghost predicate Steady(ps: seq<Publication>, delivered: seq<seq<byte>>) {
    && (forall i :: 0 <= i < |ps| ==> !CutShort(ps[i]))
    && AllPackets(ps) == Survivors(delivered)
  }

  /** The packets delivered are those published and a rest, which no scan could be made from. */
  ghost predicate LeavesOver(ps: seq<Publication>, delivered: seq<seq<byte>>, rest: seq<Packet>) {
    && Survivors(delivered) == AllPackets(ps) + rest
    && Unfinished(rest)
    && (rest != [] ==> forall i :: 0 <= i < |ps| ==> !CutShort(ps[i]))
  }

  /**
   When the run is over: only the last scan can have been cut short, and what has been delivered
   but not published is less than a revolution, for which the shutdown came too early.
   */
  ghost predicate Ended(ps: seq<Publication>, delivered: seq<seq<byte>>) {
    && (forall i :: 0 <= i < |ps| - 1 ==> !CutShort(ps[i]))
    && exists rest :: LeavesOver(ps, delivered, rest)
  }

  lemma NothingPublished()
    ensures Steady([], []) && Ended([], [])
  {
    NothingLeft([], []);
  }

  lemma NothingLeft(ps: seq<Publication>, delivered: seq<seq<byte>>)
    requires AllPackets(ps) == Survivors(delivered)
    ensures LeavesOver(ps, delivered, [])
  {
  }

  lemma SteadyPackets(ps: seq<Publication>, delivered: seq<seq<byte>>)
    ensures Steady(ps, delivered) ==> AllPackets(ps) == Survivors(delivered)
  {
  }

  lemma FullStep(
    before: seq<Publication>, d0: seq<seq<byte>>, after: seq<Publication>, d1: seq<seq<byte>>, running: bool)
    requires Steady(before, d0) && d0 <= d1
    requires after == before ==> !running && Unfinished(Survivors(d1[|d0|..]))
    requires after != before ==>
               && |after| == |before| + 1 && before <= after
               && after[|before|].FullScan?
               && after[|before|].packets == Survivors(d1[|d0|..])
               && (after[|before|].shutDown ==> !running)
    ensures Ended(after, d1)
    ensures after != before ==> AllPackets(after) == Survivors(d1)
    ensures running ==> Steady(after, d1)
  {
    hide Survivors, AllPackets, Unfinished;
    assert d1 == d0 + d1[|d0|..];
    SurvivorsConcat(d0, d1[|d0|..]);
    if after != before {
      assert after == before + [after[|before|]];
      AllPacketsSnoc(before, after[|before|]);
      NothingLeft(after, d1);
    } else {
      assert LeavesOver(after, d1, Survivors(d1[|d0|..]));
    }
  }

  lemma SingleStep(before: seq<Publication>, d0: seq<seq<byte>>, after: seq<Publication>, d1: seq<seq<byte>>)
    requires Steady(before, d0)
    requires d1 == d0 ==> after == before
    requires d1 != d0 ==>
               && |d1| == |d0| + 1 && d0 <= d1 && |d1[|d0|]| == PKT_LEN
               && var packet := Decode(d1[|d0|]);
               if packet.Ok? then
                 && |after| == |before| + 1 && before <= after
                 && after[|before|].SinglePacket? && after[|before|].packet == packet.value
               else after == before
    ensures Steady(after, d1) && Ended(after, d1)
  {
    hide Survivors, AllPackets, Decode;
    if d1 != d0 {
      assert d1 == d0 + [d1[|d0|]];
      SurvivorsSnoc(d0, d1[|d0|]);
      if after != before {
        assert after == before + [after[|before|]];
        AllPacketsSnoc(before, after[|before|]);
      }
    }
    NothingLeft(after, d1);
  }

  /** A run that publishes nothing has not been delivered a complete revolution. */
  lemma {:induction false} NothingForNothing(delivered: seq<seq<byte>>)
    ensures Ended([], delivered) <==> Unfinished(Survivors(delivered))
  {
    hide Survivors, Unfinished;
    assert AllPackets([]) == [];
    assert [] + Survivors(delivered) == Survivors(delivered);
    if Ended([], delivered) {
      var rest :| LeavesOver([], delivered, rest);
      assert [] + rest == rest;
    } else {
      assert Unfinished(Survivors(delivered)) ==> LeavesOver([], delivered, Survivors(delivered));
    }
  }

  /** Every scan of a run but the last one is a complete revolution. */
  lemma AllButLastComplete(ps: seq<Publication>, delivered: seq<seq<byte>>, i: nat)
    requires AllSound(ps) && Ended(ps, delivered)
    requires i < |ps| - 1 && ps[i].FullScan?
    ensures Run(ps[i].packets).complete
    ensures |ps[i].packets| > 0 && |Positions(ps[i].packets)| == PACKETS_PER_REV
  {
    hide Run, Positions;
    assert Sound(ps[i]) && !CutShort(ps[i]);
    FullScanCompleteness(ps[i]);
  }

  /** What holds of a driver whose run over UDP is over. */
  ghost predicate RanUdp(d: Driver, configuration: DriverConfig.DriverConfig, filter: Option<Address>,
                         opens: nat -> OpenReply, polls: nat -> PollAnswers)
    reads d, d.receiver, d.receiver.env, d.receiver.socket
  {
    && d.Valid() && d.receiver.env.okLeft == 0
    && d.receiver.World() == Outside(polls, opens, filter,
                                     configuration.udpReconnectInitialMs, configuration.udpReconnectMaxMs)
    && AllOfType(d.published, configuration.capture)
    && Ended(d.published, d.receiver.delivered)
    && (configuration.capture == DriverConfig.SINGLE ==> AllPackets(d.published) == Survivors(d.receiver.delivered))
  }

  /**
   Starting the driver over UDP and running it: the socket is opened, the driver is built around
   it, and it polls until the node is shut down.
   */
  method StartUdp(
    configuration: DriverConfig.DriverConfig, parsed: Option<Address>, uninitialized: int, answers: OpenReply,
    okLeft: nat, opens: nat -> OpenReply, polls: nat -> PollAnswers)
    returns (r: Result<Driver, Errno>)
    requires configuration.mode == DriverConfig.UDP
    ensures r.Ok? <==> SourceFilter(configuration.ip, parsed).Ok? && answers.Succeeds()
    ensures r.Ok? ==>
              && fresh(r.value)
              && RanUdp(r.value, configuration, SourceFilter(configuration.ip, parsed).value, opens, polls)
  {
    var connected, _ := Connect(configuration.ip, parsed, uninitialized, answers);
    if connected.Err? {
      return Err(connected.error);
    }
    var env := new Environment(okLeft, opens, polls);
    var receiver := new UdpReceiver(
      env, connected.value, configuration.udpReconnectInitialMs, configuration.udpReconnectMaxMs);
    var driver := new Driver(receiver);
    driver.RunDriver(configuration.capture);
    return Ok(driver);
  }

  /**
   A FULL scan published while the node runs is complete: all twenty positions were received,
   every position reports the first packet for it, and all of them share one counter.
   */
  lemma FullScanIsOneRevolution(p: Publication, k: nat)
    requires p.FullScan? && Sound(p) && !p.shutDown && k < PACKETS_PER_REV
    ensures |p.packets| > 0 && Run(p.packets).complete
    ensures exists j: nat :: FirstFill(p.packets, k, j) && p.packets[j].rotation == Run(p.packets).rotation
                             && ReportsPacket(p.message, k, p.packets[j])
  {
    RunConsistent(p.packets);
    CompleteScan(p.message, p.packets, k);
  }

  /**
   The documented promise fails at shutdown: what a poll publishes that starts after the
   shutdown is a scan of 2300 zeros, which no packet has contributed to.
   */
  lemma EmptyScanIsZeros(p: Publication)
    requires p.FullScan? && Sound(p) && p.packets == []
    ensures |p.message.ranges| == POINTS_PER_REV
    ensures forall i :: 0 <= i < POINTS_PER_REV ==> p.message.ranges[i] == Metres(0.0)
    ensures p.message.rangeMin == 0.0 && p.message.rangeMax == 0.0
    ensures p.shutDown && !Run(p.packets).complete
  {
    var m := p.message;
    forall i | 0 <= i < POINTS_PER_REV
      ensures m.ranges[i] == Metres(0.0)
    {
      assert m.ranges[i] == ToReading(Initial().ranges[i]);
    }
    assert m.ranges[0].Metres?;
    assert Occurs(m.ranges, m.rangeMin) && Occurs(m.ranges, m.rangeMax);
  }

  /** A published FULL scan is complete exactly when all twenty positions were received. */
  lemma FullScanCompleteness(p: Publication)
    requires p.FullScan? && Sound(p)
    ensures Run(p.packets).complete <==> |p.packets| > 0 && |Positions(p.packets)| == PACKETS_PER_REV
    ensures !p.shutDown ==> |p.packets| > 0 && |Positions(p.packets)| == PACKETS_PER_REV
  {
    RunConsistent(p.packets);
    if |p.packets| > 0 {
      RunCounts(p.packets);
    }
  }

  /**
   From the device to the subscriber: a FULL poll whose datagrams deliver a scan, in any order
   with repeats and foreign datagrams, publishes that scan's ranges in metres, its intensities
   and its scan time; if the node is not shut down, all twenty packets have arrived.
   */
  lemma PublishedDelivery(p: Publication, before: seq<seq<byte>>, raws: seq<seq<byte>>, scan: Scan)
    requires p.FullScan? && Sound(p) && p.packets == Survivors(before) + Survivors(raws)
    requires Survivors(before) == [] || Delta(scan.rotation, Active(Survivors(before))) > 0
    requires Delivery(raws, scan) && |raws| > 0 && Genuine(raws[0], scan)
    ensures !p.shutDown ==> |Arrived(raws, scan)| == PACKETS_PER_REV
    ensures |Arrived(raws, scan)| == PACKETS_PER_REV ==>
              && |p.message.ranges| == POINTS_PER_REV
              && (forall i :: 0 <= i < POINTS_PER_REV ==> p.message.ranges[i] == ToReading(scan.ranges[i]))
              && p.message.intensities == scan.intensities
              && p.message.scanTime == ScanTime(scan.frequency)
  {
    hide Run, Survivors, Active, Delivery, Genuine, Arrived;
    DeliveredScan(Survivors(before), raws, scan);
  }
}
