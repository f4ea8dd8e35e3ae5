/** What a run in FULL mode publishes, told from the packets it was given and nothing else. */
module PublishedRuns {
  import opened M360Packet
  import opened FullScanAssembler
  import opened ScanDelivery
  import opened RosDriver

  /** The first `n` packets complete a revolution, and no fewer do. */
  ghost predicate FirstRevolution(h: seq<Packet>, n: nat) {
    n <= |h| && OnlyAtEnd(h[..n]) && Run(h[..n]).complete
  }

  /** The packets cut into revolutions: each ends where it becomes complete, and the next one starts afresh. */
  ghost function Revolutions(h: seq<Packet>): seq<seq<Packet>>
    decreases |h|
  {
    if n: nat :| n > 0 && FirstRevolution(h, n) then [h[..n]] + Revolutions(h[n..]) else []
  }

  lemma {:induction false} FirstIsUnique(h: seq<Packet>, m: nat, n: nat)
    requires m < n && FirstRevolution(h, m)
    ensures !FirstRevolution(h, n)
  {
    hide Run;
    if n <= |h| {
      assert h[..n][..m] == h[..m];
    }
  }

  lemma EmptyIsIncomplete()
    ensures !Run([]).complete
  {
  }

  /** A complete scan is the first revolution of the packets that begin with it. */
  lemma {:induction false} RevolutionsStep(a: seq<Packet>, rest: seq<Packet>)
    requires OnlyAtEnd(a) && Run(a).complete
    ensures Revolutions(a + rest) == [a] + Revolutions(rest)
  {
    hide Run;
    EmptyIsIncomplete();
    var h := a + rest;
    assert h[..|a|] == a && h[|a|..] == rest;
    assert FirstRevolution(h, |a|);
    forall n: nat | FirstRevolution(h, n)
      ensures n == |a|
    {
      if n < |a| {
        FirstIsUnique(h, n, |a|);
      } else if n > |a| {
        FirstIsUnique(h, |a|, n);
      }
    }
  }

  lemma {:induction false} NoRevolution(h: seq<Packet>)
    requires Unfinished(h)
    ensures Revolutions(h) == []
  {
    hide Run;
    assert h[..|h|] == h;
  }

  lemma {:induction false} AllPacketsCons(p: Publication, ps: seq<Publication>)
    ensures AllPackets([p] + ps) == PacketsOf(p) + AllPackets(ps)
  {
    if ps == [] {
      assert [p] + ps == [] + [p];
      AllPacketsSnoc([], p);
    } else {
      hide AllPackets, PacketsOf;
      var before, last := ps[..|ps| - 1], ps[|ps| - 1];
      assert ps == before + [last];
      calc {
        AllPackets([p] + ps);
        { Associative([p], before, [last]); AllPacketsSnoc([p] + before, last); }
        AllPackets([p] + before) + PacketsOf(last);
        { AllPacketsCons(p, before); }
        PacketsOf(p) + AllPackets(before) + PacketsOf(last);
        { Associative(PacketsOf(p), AllPackets(before), PacketsOf(last)); }
        PacketsOf(p) + (AllPackets(before) + PacketsOf(last));
        { AllPacketsSnoc(before, last); }
        PacketsOf(p) + AllPackets(ps);
      }
    }
  }

  /** The scans are the revolutions of `h`, in order, and possibly one more that is incomplete. */
  ghost predicate Publishes(ps: seq<Publication>, h: seq<Packet>) {
    var rs := Revolutions(h);
    && |rs| <= |ps| <= |rs| + 1
    && (forall i :: 0 <= i < |ps| ==> ps[i].FullScan?)
    && (forall i :: 0 <= i < |rs| ==> ps[i].packets == rs[i] && Run(ps[i].packets).complete)
    && (|ps| == |rs| + 1 ==> CutShort(ps[|rs|]) && Unfinished(ps[|rs|].packets))
  }

  lemma {:induction false} PublishesCons(p: Publication, ps: seq<Publication>, h: seq<Packet>)
    requires p.FullScan? && OnlyAtEnd(p.packets) && Run(p.packets).complete && Publishes(ps, h)
    ensures Publishes([p] + ps, p.packets + h)
  {
    hide Run, Revolutions, OnlyAtEnd;
    RevolutionsStep(p.packets, h);
  }

  lemma {:induction false} PublishesEnded(ps: seq<Publication>, h: seq<Packet>, rest: seq<Packet>)
    requires AllSound(ps) && forall i :: 0 <= i < |ps| ==> ps[i].FullScan?
    requires forall i :: 0 <= i < |ps| - 1 ==> !CutShort(ps[i])
    requires h == AllPackets(ps) + rest && Unfinished(rest)
    requires rest != [] ==> forall i :: 0 <= i < |ps| ==> !CutShort(ps[i])
    ensures Publishes(ps, h)
    decreases |ps|
  {
    hide Run, Revolutions, OnlyAtEnd, AllPackets;
    if ps == [] {
      NothingPublishedAtAll();
      assert h == rest;
      NoRevolution(h);
    } else {
      var p, later := ps[0], ps[1..];
      assert ps == [p] + later;
      AllPacketsCons(p, later);
      Associative(p.packets, AllPackets(later), rest);
      assert Sound(p);
      if Run(p.packets).complete {
        assert forall i :: 0 <= i < |later| ==> later[i] == ps[i + 1];
        PublishesEnded(later, AllPackets(later) + rest, rest);
        PublishesCons(p, later, AllPackets(later) + rest);
      } else {
        assert CutShort(ps[0]) && later == [];
        NothingPublishedAtAll();
        assert h == p.packets;
        NoRevolution(h);
      }
    }
  }

  lemma NothingPublishedAtAll()
    ensures AllPackets([]) == []
  {
  }

  /**
   The scans of a run in FULL mode are determined by the packets delivered to it: they are its
   revolutions, each ended by the packet that completes it, and besides at most one last scan that
   the shutdown has cut short. No complete revolution is left out, and none is published twice.
   */
  lemma {:induction false} PublishesExactly(ps: seq<Publication>, delivered: seq<seq<byte>>)
    requires AllSound(ps) && Ended(ps, delivered)
    requires forall i :: 0 <= i < |ps| ==> ps[i].FullScan?
    ensures Publishes(ps, Survivors(delivered))
  {
    hide Run, Revolutions, OnlyAtEnd, AllPackets, Survivors, Publishes;
    var rest :| LeavesOver(ps, delivered, rest);
    PublishesEnded(ps, Survivors(delivered), rest);
  }
}
