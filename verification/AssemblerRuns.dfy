/** Laws of whole runs of the assembler: counting, stuttering, conservation, counter wrap. */
module AssemblerRuns {
  import opened M360Packet
  import opened FullScanAssembler
  import opened AssemblerHistory

  // ----- Counting -----

  function CountTrue(flags: seq<bool>): (n: nat)
    ensures n <= |flags|
  {
    if flags == [] then 0
    else CountTrue(flags[..|flags| - 1]) + if flags[|flags| - 1] then 1 else 0
  }

  lemma {:induction false} CountExtremes(flags: seq<bool>)
    ensures CountTrue(flags) == |flags| <==> forall k :: 0 <= k < |flags| ==> flags[k]
    ensures CountTrue(flags) == 0 <==> forall k :: 0 <= k < |flags| ==> !flags[k]
  {
    if flags != [] {
      var last := |flags| - 1;
      CountExtremes(flags[..last]);
      assert forall k :: 0 <= k < last ==> flags[k] == flags[..last][k];
    }
  }

  lemma {:induction false} CountRaise(flags: seq<bool>, k: nat)
    requires k < |flags| && !flags[k]
    ensures CountTrue(flags[k := true]) == CountTrue(flags) + 1
  {
    var last := |flags| - 1;
    if k == last {
      assert flags[k := true][..last] == flags[..last];
    } else {
      assert flags[k := true][..last] == flags[..last][k := true];
      CountRaise(flags[..last], k);
    }
  }

  ghost function TrueSet(flags: seq<bool>): set<nat> {
    set k: nat | k < |flags| && flags[k]
  }

  lemma {:induction false} CountIsCardinality(flags: seq<bool>)
    ensures CountTrue(flags) == |TrueSet(flags)|
  {
    if flags != [] {
      var last := |flags| - 1;
      CountIsCardinality(flags[..last]);
      assert TrueSet(flags) == TrueSet(flags[..last]) + if flags[last] then {last} else {};
    }
  }

  /** What every reachable state satisfies. */
  ghost predicate Consistent(s: State) {
    && s.count == CountTrue(s.received)
    && (s.hasRotation ==> s.count > 0 && (s.complete <==> forall k :: 0 <= k < PACKETS_PER_REV ==> s.received[k]))
    && (!s.hasRotation ==> s.count == 0 && !s.complete && s.discarded == 0)
  }

  lemma StoreConsistent(s: State, p: Packet)
    requires s.count == CountTrue(s.received) && s.hasRotation && !s.received[p.Position()]
    ensures Consistent(Store(s, p))
  {
    CountRaise(s.received, p.Position());
    CountExtremes(Store(s, p).received);
  }

  lemma AddConsistent(s: State, p: Packet)
    requires Consistent(s)
    ensures Consistent(Add(s, p)) && Add(s, p).hasRotation
  {
    if Opens(s, p) {
      CountExtremes(Begin(s, p).received);
      StoreConsistent(Begin(s, p), p);
    } else if !Stale(s, p) && !Duplicate(s, p) {
      StoreConsistent(s, p);
    }
  }

  lemma {:induction false} RunConsistent(h: seq<Packet>)
    ensures Consistent(Run(h))
    ensures Run(h).hasRotation <==> |h| > 0
  {
    if h == [] {
      CountExtremes(Initial().received);
    } else {
      RunConsistent(h[..|h| - 1]);
      AddConsistent(Run(h[..|h| - 1]), h[|h| - 1]);
    }
  }

  /** The positions some packet of the active revolution has filled. */
  ghost function Positions(h: seq<Packet>): set<nat>
    requires |h| > 0
  {
    set k: nat | k < PACKETS_PER_REV && Filled(h, k)
  }

  lemma {:induction false} FlagsAreFilled(h: seq<Packet>)
    requires |h| > 0
    ensures forall k: nat :: k < PACKETS_PER_REV ==> (Run(h).received[k] <==> Filled(h, k))
  {
    hide Run, FirstFill, Filled, BlockHolds, BlockBlank, HeaderOf;
    RunExplained(h);
  }

  /** The stored count is the number of distinct positions seen, and completion means all twenty. */
  lemma RunCounts(h: seq<Packet>)
    requires |h| > 0
    ensures Run(h).count == |Positions(h)|
    ensures Run(h).complete <==> |Positions(h)| == PACKETS_PER_REV
    ensures Run(h).complete <==> forall k: nat :: k < PACKETS_PER_REV ==> Filled(h, k)
  {
    hide Run, Filled;
    RunConsistent(h);
    FlagsAreFilled(h);
    CountExtremes(Run(h).received);
    CountIsCardinality(Run(h).received);
    assert TrueSet(Run(h).received) == Positions(h);
  }

  // ----- Stuttering -----

  ghost predicate Ignored(s: State, p: Packet) {
    Stale(s, p) || Duplicate(s, p)
  }

  /** In a reachable state, a packet changes nothing exactly when it is stale or a duplicate. */
  lemma AddUnchanged(s: State, p: Packet)
    requires Consistent(s)
    ensures Add(s, p) == s <==> Ignored(s, p)
  {
    if Opens(s, p) {
      assert Add(s, p).rotation == p.rotation && Add(s, p).hasRotation;
    } else if !Ignored(s, p) {
      assert Add(s, p).count == s.count + 1;
    }
  }

  /** The history without the packets that were stale or duplicate when they arrived. */
  ghost function Kept(h: seq<Packet>): seq<Packet> {
    if h == [] then []
    else
      var g, p := h[..|h| - 1], h[|h| - 1];
      if Ignored(Run(g), p) then Kept(g) else Kept(g) + [p]
  }

  /** Deleting them changes nothing, and what is left contains no packet that could be deleted. */
  lemma {:induction false} RunKept(h: seq<Packet>)
    ensures Run(Kept(h)) == Run(h)
    ensures Kept(Kept(h)) == Kept(h)
  {
    if h != [] {
      var g, p := h[..|h| - 1], h[|h| - 1];
      RunKept(g);
      if !Ignored(Run(g), p) {
        RunSnoc(Kept(g), p);
        assert (Kept(g) + [p])[..|Kept(g)|] == Kept(g);
      }
    }
  }

  /** Packets that bring neither a newer counter nor a new position are absorbed, however many. */
  lemma {:induction false} RunAbsorbs(h: seq<Packet>, more: seq<Packet>)
    requires forall i :: 0 <= i < |more| ==> Ignored(Run(h), more[i])
    ensures Run(h + more) == Run(h)
  {
    if more == [] {
      assert h + more == h;
    } else {
      var last := |more| - 1;
      RunAbsorbs(h, more[..last]);
      assert h + more == (h + more[..last]) + [more[last]];
      RunSnoc(h + more[..last], more[last]);
    }
  }

  // ----- Conservation -----

  /** What happened to revolutions and packets over a history. */
  datatype Ledger = Ledger(begun: nat, completed: nat, accepted: nat, lost: nat)

  ghost function Tally(h: seq<Packet>): Ledger {
    if h == [] then Ledger(0, 0, 0, 0)
    else
      var g, p := h[..|h| - 1], h[|h| - 1];
      var s, t := Run(g), Tally(g);
      var opens, accepts := Opens(s, p), !Ignored(s, p);
      Ledger(
        t.begun + if opens then 1 else 0,
        t.completed + if accepts && Run(h).complete then 1 else 0,
        t.accepted + if accepts then 1 else 0,
        t.lost + if opens && !s.complete then s.count else 0)
  }

  /** The parts of a state that the books are balanced against. */
  ghost predicate Balanced(t: Ledger, s: State) {
    && t.begun == s.discarded + t.completed + (if s.hasRotation && !s.complete then 1 else 0)
    && t.accepted == PACKETS_PER_REV * t.completed + t.lost + (if s.complete then 0 else s.count)
  }

  /**
   Conservation. Every revolution begun is discarded, completed or still open, and every
   accepted packet is in a completed revolution, in a discarded one, or in the open one.
   */
  lemma {:induction false} RunBalanced(h: seq<Packet>)
    ensures Balanced(Tally(h), Run(h))
  {
    if h != [] {
      var g, p := h[..|h| - 1], h[|h| - 1];
      RunBalanced(g);
      RunConsistent(g);
      CountExtremes(Run(g).received);
      RunConsistent(h);
      CountExtremes(Run(h).received);
    }
  }

  /** The number of accepted packets is the length of the history that matters. */
  lemma {:induction false} AcceptedAreKept(h: seq<Packet>)
    ensures Tally(h).accepted == |Kept(h)|
  {
    if h != [] {
      AcceptedAreKept(h[..|h| - 1]);
    }
  }

  // ----- Counter wrap -----

  ghost function MaxOf(t: seq<int>): (m: int)
    requires |t| > 0
    ensures forall i :: 0 <= i < |t| ==> t[i] <= m
  {
    var last := |t| - 1;
    if last == 0 then t[0]
    else
      var before := MaxOf(t[..last]);
      assert forall i :: 0 <= i < last ==> t[..last][i] == t[i];
      if before < t[last] then t[last] else before
  }

  /** `t[i]` is the true, unbounded rotation number of packet `i`. */
  ghost predicate Labels(h: seq<Packet>, t: seq<int>) {
    |t| == |h| && forall i :: 0 <= i < |h| ==> h[i].rotation == t[i] % 0x1_0000
  }

  /** How far an arrival may be from the newest rotation seen so far. */
  ghost predicate InWindow(t: int, newest: int) {
    -0x8000 <= t - newest <= 0x7FFF
  }

  ghost predicate Windowed(t: seq<int>) {
    forall i :: 0 < i < |t| ==> InWindow(t[i], MaxOf(t[..i]))
  }

  /** Inside the window the 16-bit difference is the true one. */
  lemma DeltaExact(t: int, newest: int)
    requires InWindow(t, newest)
    ensures Delta(t % 0x1_0000, newest % 0x1_0000) == t - newest
  {
    var d := t % 0x1_0000 - newest % 0x1_0000;
    var turns := t / 0x1_0000 - newest / 0x1_0000;
    assert t - newest == 0x1_0000 * turns + d;
    if d < 0 {
      assert d % 0x1_0000 == d + 0x1_0000;
    } else {
      assert d % 0x1_0000 == d;
    }
  }

  /** The 16-bit comparison with the newest rotation comes out as the true one would. */
  ghost predicate Rightly(t: int, newest: int) {
    || t == newest
    || (t > newest && 1 <= (t - newest) % 0x1_0000 <= 0x7FFF)
    || (t < newest && (t - newest) % 0x1_0000 >= 0x8000)
  }

  lemma {:induction false} DeltaModulo(t: int, newest: int)
    ensures Delta(t % 0x1_0000, newest % 0x1_0000) ==
            var d := (t - newest) % 0x1_0000; if d >= 0x8000 then d - 0x1_0000 else d
  {
    var turns := t / 0x1_0000 - newest / 0x1_0000;
    assert t - newest == 0x1_0000 * turns + (t % 0x1_0000 - newest % 0x1_0000);
  }

  /** Exactly the arrivals that are ordered rightly are told apart rightly from the newest rotation. */
  lemma {:induction false} RightlyExactly(t: int, newest: int)
    ensures var d := Delta(t % 0x1_0000, newest % 0x1_0000);
            Rightly(t, newest) <==> (d > 0 <==> t > newest) && (d < 0 <==> t < newest)
  {
    DeltaModulo(t, newest);
  }

  /** The window is the largest interval around the newest rotation in which that is so. */
  lemma {:induction false} WindowIsTight(newest: int)
    ensures forall t :: InWindow(t, newest) ==> Rightly(t, newest)
    ensures !Rightly(newest + 0x8000, newest) && !Rightly(newest - 0x8001, newest)
  {
    forall t | InWindow(t, newest)
      ensures Rightly(t, newest)
    {
      DeltaExact(t, newest);
      RightlyExactly(t, newest);
    }
  }

  /** "Newer than" is transitive exactly for two steps that stay within half a counter range. */
  lemma {:induction false} NewerIsNotTransitive(a: u16, b: u16, c: u16)
    requires Delta(b, a) > 0 && Delta(c, b) > 0
    ensures Delta(c, a) > 0 <==> Delta(b, a) + Delta(c, b) <= 0x7FFF
    ensures Delta(a, c) > 0 <==> Delta(b, a) + Delta(c, b) > 0x8000
  {
  }

  /**
   The same of the assembler: after three revolutions, each newer than the one before, any packet
   with the first one's counter opens a revolution again if and only if the two steps exceed half
   a counter range; otherwise it changes nothing.
   */
  lemma {:induction false} PastReopens(a: Packet, b: Packet, c: Packet, d: Packet)
    requires Delta(b.rotation, a.rotation) > 0 && Delta(c.rotation, b.rotation) > 0
    requires d.rotation == a.rotation
    ensures Run([a, b, c]).rotation == c.rotation
    ensures var s := Run([a, b, c, d]);
            var far := Delta(b.rotation, a.rotation) + Delta(c.rotation, b.rotation) > 0x8000;
            && (s.rotation == a.rotation <==> far)
            && (s.discarded == 3 <==> far)
            && (far ==> BlockHolds(s, d.Position(), d))
            && (!far ==> s == Run([a, b, c]))
  {
    var r := Run([a, b, c]);
    RunSnoc([], a);
    assert [] + [a] == [a];
    RunSnoc([a], b);
    assert [a] + [b] == [a, b];
    RunSnoc([a, b], c);
    assert [a, b] + [c] == [a, b, c];
    RunSnoc([a, b, c], d);
    assert [a, b, c] + [d] == [a, b, c, d];
    NewerIsNotTransitive(a.rotation, b.rotation, c.rotation);
    StoreBlocks(Begin(r, d), d, d.Position());
  }

  /** Every arrival is ordered rightly against the newest rotation seen before it. */
  ghost predicate Ordered(t: seq<int>) {
    forall i :: 0 < i < |t| ==> Rightly(t[i], MaxOf(t[..i]))
  }

  lemma {:induction false} WindowedIsOrdered(t: seq<int>)
    requires Windowed(t)
    ensures Ordered(t)
  {
    forall i | 0 < i < |t|
      ensures Rightly(t[i], MaxOf(t[..i]))
    {
      WindowIsTight(MaxOf(t[..i]));
    }
  }

  /** The active revolution is the newest one, and exactly the packets of that rotation are its own. */
  ghost predicate Newest(h: seq<Packet>, t: seq<int>)
    requires |h| > 0 && |t| == |h|
  {
    && t[Start(h)] == MaxOf(t)
    && forall j: nat :: j < |h| ==> (t[j] == MaxOf(t) <==> Start(h) <= j && h[j].rotation == Active(h))
  }

  lemma {:induction false} MaxOfSnoc(u: seq<int>, x: int)
    requires |u| > 0
    ensures MaxOf(u + [x]) == if MaxOf(u) < x then x else MaxOf(u)
  {
    assert (u + [x])[..|u|] == u;
  }

  /** One arrival keeps the newest revolution active if and only if it is ordered rightly. */
  lemma {:induction false} NewestStep(g: seq<Packet>, u: seq<int>, p: Packet, x: int)
    requires |g| > 0 && |u| == |g| && Newest(g, u)
    requires Labels(g + [p], u + [x])
    ensures Newest(g + [p], u + [x]) <==> Rightly(x, MaxOf(u))
  {
    var h, t := g + [p], u + [x];
    StartSnoc(g, p);
    MaxOfSnoc(u, x);
    assert h[|g|] == p && t[|u|] == x;
    assert h[Start(g)].rotation == t[Start(g)] % 0x1_0000;
    assert Active(g) == MaxOf(u) % 0x1_0000;
    RightlyExactly(x, MaxOf(u));
    forall j: nat | j < |g|
      ensures h[j] == g[j] && t[j] == u[j] <= MaxOf(u)
    {
    }
    if x <= MaxOf(u) && Rightly(x, MaxOf(u)) {
      assert Start(h) == Start(g) && Active(h) == Active(g);
    }
    assert Newest(h, t) ==> (t[|g|] == MaxOf(t) <==> Start(h) <= |g| && h[|g|].rotation == Active(h));
  }

  /** The prefixes of a labelled history are labelled. */
  lemma {:induction false} LabelsPrefix(h: seq<Packet>, t: seq<int>, n: nat)
    requires Labels(h, t) && n <= |h|
    ensures Labels(h[..n], t[..n])
  {
  }

  /**
   The exact law of counter wrap. Along a run of any length the active revolution is the newest
   one, made of exactly the packets of that true rotation, if and only if every arrival is
   ordered rightly: modulo the counter range, 1 to 32767 ahead of the newest one before it if it
   is newer, and 1 to 32768 behind it if it is older.
   */
  lemma {:induction false} NewestExactly(h: seq<Packet>, t: seq<int>)
    requires Labels(h, t)
    ensures (forall n: nat :: 0 < n <= |h| ==> Newest(h[..n], t[..n])) <==> Ordered(t)
  {
    if Ordered(t) {
      forall n: nat | 0 < n <= |h|
        ensures Newest(h[..n], t[..n])
      {
        NewestAlong(h, t, n);
      }
    }
    if forall n: nat :: 0 < n <= |h| ==> Newest(h[..n], t[..n]) {
      forall i | 0 < i < |t|
        ensures Rightly(t[i], MaxOf(t[..i]))
      {
        Extended(h, t, i);
        NewestStep(h[..i], t[..i], h[i], t[i]);
        assert Newest(h[..i + 1], t[..i + 1]);
      }
    }
  }

  lemma {:induction false} Extended(h: seq<Packet>, t: seq<int>, i: nat)
    requires Labels(h, t) && i < |h|
    ensures h[..i] + [h[i]] == h[..i + 1] && t[..i] + [t[i]] == t[..i + 1]
    ensures Labels(h[..i] + [h[i]], t[..i] + [t[i]])
  {
    LabelsPrefix(h, t, i + 1);
  }

  lemma {:induction false} NewestAlong(h: seq<Packet>, t: seq<int>, n: nat)
    requires Labels(h, t) && Ordered(t) && 0 < n <= |h|
    ensures Newest(h[..n], t[..n])
  {
    if n > 1 {
      NewestAlong(h, t, n - 1);
      Extended(h, t, n - 1);
      NewestStep(h[..n - 1], t[..n - 1], h[n - 1], t[n - 1]);
    }
  }

  /** On rightly ordered arrivals the active revolution is the newest one, and only its packets count. */
  lemma {:induction false} ActiveIsNewest(h: seq<Packet>, t: seq<int>)
    requires |h| > 0 && Labels(h, t) && Ordered(t)
    ensures Newest(h, t)
  {
    NewestAlong(h, t, |h|);
    assert h[..|h|] == h && t[..|t|] == t;
  }

  lemma {:induction false} LongGap()
    ensures MaxOf([0, 0x5000, 0xA000, 0]) == 0xA000 && !Ordered([0, 0x5000, 0xA000, 0])
  {
    var t := [0, 0x5000, 0xA000, 0];
    MaxOfSnoc([0], 0x5000);
    MaxOfSnoc([0, 0x5000], 0xA000);
    MaxOfSnoc([0, 0x5000, 0xA000], 0);
    assert [0] + [0x5000] == [0, 0x5000] && [0, 0x5000] + [0xA000] == [0, 0x5000, 0xA000];
    assert [0, 0x5000, 0xA000] + [0] == t && t[..3] == [0, 0x5000, 0xA000];
    assert !Rightly(t[3], MaxOf(t[..3]));
  }

  /** Three newer revolutions, and then the past is reopened: the newest one is lost. */
  lemma {:induction false} PastCanReopen(p: Packet)
    ensures var a, b, c := p.(rotation := 0), p.(rotation := 0x5000), p.(rotation := 0xA000);
            var t := [0, 0x5000, 0xA000, 0];
            && Labels([a, b, c, a], t) && !Ordered(t)
            && Run([a, b, c, a]).rotation == 0 && Run([a, b, c, a]).discarded == 3
            && !Newest([a, b, c, a], t)
  {
    hide Run, Ordered, MaxOf, Start;
    var a, b, c := p.(rotation := 0), p.(rotation := 0x5000), p.(rotation := 0xA000);
    PastReopens(a, b, c, a);
    LongGap();
    RunExplained([a, b, c, a]);
  }

  ghost predicate FromNewest(h: seq<Packet>, t: seq<int>, k: nat, j: nat)
    requires |h| > 0 && |t| == |h|
  {
    j < |h| && t[j] == MaxOf(t) && h[j].Position() == k
  }

  ghost predicate FirstFromNewest(h: seq<Packet>, t: seq<int>, k: nat, j: nat)
    requires |h| > 0 && |t| == |h|
  {
    FromNewest(h, t, k, j) && forall i: nat :: i < j ==> !FromNewest(h, t, k, i)
  }

  /** The fields hold the newest true rotation: the first packet of it for each position, and nothing else. */
  ghost predicate HoldsNewest(h: seq<Packet>, t: seq<int>, s: State)
    requires |h| > 0 && |t| == |h|
  {
    && s.rotation == MaxOf(t) % 0x1_0000
    && (forall k: nat :: k < PACKETS_PER_REV ==> (s.received[k] <==> exists j: nat :: FromNewest(h, t, k, j)))
    && (forall k: nat, j: nat :: k < PACKETS_PER_REV && FirstFromNewest(h, t, k, j) ==> BlockHolds(s, k, h[j]))
    && (forall k: nat :: k < PACKETS_PER_REV && !s.received[k] ==> BlockBlank(s, k))
  }

  /**
   No mixing across counter wrap. However long the run, and however often the counter wraps,
   the stored revolution is that of the newest true rotation: each position holds the first
   packet of that rotation for it, and a position that rotation has not filled is blank.
   */
  lemma NoMixing(h: seq<Packet>, t: seq<int>)
    requires |h| > 0 && Labels(h, t) && Ordered(t)
    ensures HoldsNewest(h, t, Run(h))
  {
    RunExplained(h);
    ActiveIsNewest(h, t);
    forall k: nat, j: nat
      ensures FromNewest(h, t, k, j) <==> Fills(h, k, j)
    {
    }
    forall k: nat | k < PACKETS_PER_REV
      ensures Filled(h, k) <==> exists j: nat :: FromNewest(h, t, k, j)
    {
      if j: nat :| FromNewest(h, t, k, j) {
        assert Fills(h, k, j);
      }
    }
    forall k: nat, j: nat | FirstFromNewest(h, t, k, j)
      ensures FirstFill(h, k, j)
    {
    }
  }

  /** In particular when every arrival is within half a counter range of the newest before it. */
  lemma {:induction false} NoMixingInWindow(h: seq<Packet>, t: seq<int>)
    requires |h| > 0 && Labels(h, t) && Windowed(t)
    ensures HoldsNewest(h, t, Run(h))
  {
    WindowedIsOrdered(t);
    NoMixing(h, t);
  }

  // ----- Replaying a capture -----

  /** A capture that can be replayed: ordered rightly on the first pass, and against its newest rotation. */
  ghost predicate Replayable(h: seq<Packet>, t: seq<int>) {
    && Labels(h, t)
    && Ordered(t)
    && (|t| > 0 ==> forall i :: 0 <= i < |t| ==> Rightly(t[i], MaxOf(t)))
  }

  /** After one pass over such a capture, none of its packets is news. */
  lemma ReplayedPacketIgnored(h: seq<Packet>, t: seq<int>, i: nat)
    requires i < |h| && Replayable(h, t)
    ensures Ignored(Run(h), h[i])
  {
    ActiveIsNewest(h, t);
    RunExplained(h);
    RightlyExactly(t[i], MaxOf(t));
    if t[i] == MaxOf(t) {
      assert Fills(h, h[i].Position(), i);
    }
  }

  /**
   A capture that leaves a revolution incomplete leaves it incomplete for ever: the assembler
   survives the restart of the file, and whatever of the capture is replayed, in whatever
   order and however often, is stale or a duplicate.
   */
  lemma {:induction false} ReplayChangesNothing(h: seq<Packet>, t: seq<int>, more: seq<Packet>)
    requires Replayable(h, t)
    requires forall i :: 0 <= i < |more| ==> more[i] in h
    ensures Run(h + more) == Run(h)
  {
    forall i | 0 <= i < |more|
      ensures Ignored(Run(h), more[i])
    {
      assert more[i] in h;
      var j: nat :| j < |h| && h[j] == more[i];
      ReplayedPacketIgnored(h, t, j);
    }
    RunAbsorbs(h, more);
  }

  // ----- A capture that completes on replay -----

  lemma {:induction false} ActiveIsStored(h: seq<Packet>)
    requires |h| > 0
    ensures Run(h).hasRotation && Run(h).rotation == Active(h)
  {
    hide Run, Start;
    RunExplained(h);
  }

  /** The revolution has at most as many packets as arrived since it was opened. */
  lemma {:induction false} CountSinceStart(h: seq<Packet>)
    requires |h| > 0
    ensures Run(h).count <= |h| - Start(h)
  {
    var g, p := h[..|h| - 1], h[|h| - 1];
    if g != [] {
      CountSinceStart(g);
      StartSnoc(g, p);
      ActiveIsStored(g);
      assert h == g + [p];
    }
  }

  function At(p: Packet, rotation: u16, k: nat): Packet
    requires k < PACKETS_PER_REV
  {
    p.(rotation := rotation, encoder := CHANNELS * k)
  }

  /**
   A capture that is not ordered rightly: the upper half of one revolution, a packet each of two
   revolutions that leave the first one more than half a counter range behind, and then the
   lower half of the first one.
   */
  function SplitCapture(p: Packet): (h: seq<Packet>)
    ensures |h| == 22 && forall i :: 0 <= i < 22 ==> h[i] == SplitPacket(p, i)
  {
    seq(22, i requires 0 <= i < 22 => SplitPacket(p, i))
  }

  function SplitPacket(p: Packet, i: nat): Packet
    requires i < 22
  {
    if i < 10 then At(p, 0, 10 + i)
    else if i == 10 then At(p, 0x5000, 0)
    else if i == 11 then At(p, 0xA000, 0)
    else At(p, 0, i - 12)
  }

  lemma {:induction false} SplitRotation(p: Packet, h: seq<Packet>, i: nat)
    requires h == SplitCapture(p) + SplitCapture(p)[..10] && i < |h|
    ensures h[i].rotation == if i == 10 then 0x5000 else if i == 11 then 0xA000 else 0
  {
    var c := SplitCapture(p);
    assert h[i] == if i < 22 then c[i] else c[i - 22];
  }

  /** Where the active revolution starts after each prefix of it, and during its replay. */
  lemma {:induction false} SplitStarts(p: Packet, h: seq<Packet>, n: nat)
    requires h == SplitCapture(p) + SplitCapture(p)[..10] && 0 < n <= |h|
    ensures Start(h[..n]) == (if n <= 10 then 0 else if n == 11 then 10 else if n == 12 then 11 else 12)
    ensures Active(h[..n]) == h[Start(h[..n])].rotation
  {
    SplitRotation(p, h, n - 1);
    if n > 1 {
      hide SplitCapture, Start;
      SplitStarts(p, h, n - 1);
      assert h[..n] == h[..n - 1] + [h[n - 1]];
      StartSnoc(h[..n - 1], h[n - 1]);
      SplitRotation(p, h, if n <= 11 then 0 else if n == 12 then 10 else if n == 13 then 11 else 12);
    }
  }

  /**
   Replays can add something to a capture that is not ordered rightly: on the first pass this one
   never fills more than ten positions, and replaying its first ten packets completes a revolution.
   */
  lemma {:induction false} ReplayCanComplete(p: Packet)
    ensures var h := SplitCapture(p);
            && (forall n: nat :: 0 < n <= |h| ==> |Positions(h[..n])| <= 10)
            && !Run(h).complete
            && Run(h + h[..10]).complete
            && (forall t: seq<int> :: !Replayable(h, t))
  {
    hide Run, Start, Replayable;
    var h := SplitCapture(p);
    var all := h + h[..10];
    forall n: nat | 0 < n <= |h|
      ensures |Positions(h[..n])| <= 10
    {
      assert all[..n] == h[..n];
      SplitStarts(p, all, n);
      CountSinceStart(h[..n]);
      RunCounts(h[..n]);
    }
    assert h[..|h|] == h;
    RunCounts(h);
    SplitStarts(p, all, |all|);
    assert all[..|all|] == all;
    forall k: nat | k < PACKETS_PER_REV
      ensures Filled(all, k)
    {
      var j := 12 + k;
      assert all[j] == At(p, 0, k);
      assert Fills(all, k, j);
    }
    RunCounts(all);
    forall t: seq<int>
      ensures !Replayable(h, t)
    {
      if Replayable(h, t) {
        ReplayChangesNothing(h, t, h[..10]);
      }
    }
  }
}
