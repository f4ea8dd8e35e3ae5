/**
 How often a capture has to be replayed to know that it will never complete a revolution. The
 packets may come in any order: what the assembler holds after a pass is decided, but for the count
 of discarded revolutions, by any packet in it that opened a revolution, so passes repeat.
 */
module CaptureBound {
  import opened M360Packet
  import opened FullScanAssembler
  import opened AssemblerRuns
  import opened ScanDelivery
  import opened PcapDriver
  import opened Outcomes

  /** The packets of `h`, given to an assembler in state `s`. */
  function Feed(s: State, h: seq<Packet>): State {
    if h == [] then s else Add(Feed(s, h[..|h| - 1]), h[|h| - 1])
  }

  lemma {:induction false} FeedConcat(s: State, a: seq<Packet>, b: seq<Packet>)
    ensures Feed(s, a + b) == Feed(Feed(s, a), b)
  {
    hide Add;
    if b == [] {
      assert a + b == a;
    } else {
      FeedConcat(s, a, b[..|b| - 1]);
      assert (a + b)[..|a + b| - 1] == a + b[..|b| - 1];
    }
  }

  lemma {:induction false} RunIsFeed(h: seq<Packet>)
    ensures Run(h) == Feed(Initial(), h)
  {
    hide Add;
    if h != [] {
      RunIsFeed(h[..|h| - 1]);
    }
  }

  // ----- The count of discarded revolutions influences nothing else -----

  function Core(s: State): State {
    s.(discarded := 0)
  }

  lemma {:induction false} AddCore(s: State, p: Packet)
    ensures Core(Add(s, p)) == Core(Add(Core(s), p))
  {
    hide Splice;
  }

  lemma {:induction false} FeedCore(s: State, t: State, h: seq<Packet>)
    requires Core(s) == Core(t)
    ensures Core(Feed(s, h)) == Core(Feed(t, h))
  {
    if h != [] {
      hide Add;
      FeedCore(s, t, h[..|h| - 1]);
      AddCore(Feed(s, h[..|h| - 1]), h[|h| - 1]);
      AddCore(Feed(t, h[..|h| - 1]), h[|h| - 1]);
    }
  }

  // ----- One pass over the capture -----

  /** Packet `i` opens a revolution when `c` is given to an assembler in state `s`. */
  predicate OpensAt(s: State, c: seq<Packet>, i: nat) {
    i < |c| && Opens(Feed(s, c[..i]), c[i])
  }

  ghost predicate NoneOpens(s: State, c: seq<Packet>, from: nat) {
    forall i: nat :: from <= i ==> !OpensAt(s, c, i)
  }

  /** What a revolution opened by `c[i]` looks like at the end of the pass, whatever came before. */
  function FromOpening(c: seq<Packet>, i: nat): State
    requires i < |c|
  {
    Feed(Core(Store(Begin(Initial(), c[i]), c[i])), c[i + 1..])
  }

  lemma {:induction false} OpeningForgets(s: State, p: Packet)
    requires Opens(s, p)
    ensures Core(Add(s, p)) == Core(Store(Begin(Initial(), p), p))
  {
    hide Splice;
  }

  lemma {:induction false} PassFromOpening(s: State, c: seq<Packet>, i: nat)
    requires OpensAt(s, c, i)
    ensures Core(Feed(s, c)) == Core(FromOpening(c, i))
  {
    hide Add, Store, Begin, Opens;
    var upTo := c[..i + 1];
    assert upTo[..i] == c[..i] && c == upTo + c[i + 1..];
    FeedConcat(s, upTo, c[i + 1..]);
    OpeningForgets(Feed(s, c[..i]), c[i]);
    FeedCore(Feed(s, upTo), Core(Store(Begin(Initial(), c[i]), c[i])), c[i + 1..]);
  }

  /** A pass in which no revolution is opened keeps the active counter, and fills what it has of it. */
  lemma {:induction false} QuietPass(s: State, c: seq<Packet>, n: nat)
    requires s.hasRotation && NoneOpens(s, c, 0) && n <= |c|
    ensures var t := Feed(s, c[..n]); t.hasRotation && t.rotation == s.rotation
    ensures forall k: nat :: k < PACKETS_PER_REV && s.received[k] ==> Feed(s, c[..n]).received[k]
    ensures forall i: nat :: i < n ==> Ignored(Feed(s, c[..n]), c[i])
  {
    if n > 0 {
      QuietPass(s, c, n - 1);
      assert c[..n][..n - 1] == c[..n - 1];
      var t := Feed(s, c[..n - 1]);
      assert !OpensAt(s, c, n - 1);
      QuietStep(t, c[n - 1]);
      forall i: nat | i < n - 1
        ensures Ignored(Feed(s, c[..n]), c[i])
      {
        assert Ignored(t, c[i]);
      }
    }
  }

  lemma {:induction false} QuietStep(t: State, p: Packet)
    requires t.hasRotation && !Opens(t, p)
    ensures var u := Add(t, p);
            && u.hasRotation && u.rotation == t.rotation && Ignored(u, p)
            && (forall k: nat :: k < PACKETS_PER_REV && t.received[k] ==> u.received[k])
            && (forall q: Packet :: Ignored(t, q) ==> Ignored(u, q))
  {
    hide Splice;
  }

  lemma {:induction false} IgnoredFeed(s: State, h: seq<Packet>)
    requires forall i :: 0 <= i < |h| ==> Ignored(s, h[i])
    ensures Feed(s, h) == s
  {
    if h != [] {
      hide Store, Begin;
      IgnoredFeed(s, h[..|h| - 1]);
      assert Ignored(s, h[|h| - 1]);
    }
  }

  // ----- Passes without end -----

  /** The state after `k` passes over the capture. */
  function AfterPasses(c: seq<Packet>, k: nat): State {
    if k == 0 then Initial() else Feed(AfterPasses(c, k - 1), c)
  }

  /** Some packet of the pass that begins in state `s` completes a revolution. */
  ghost predicate PassCompletes(s: State, c: seq<Packet>) {
    exists n: nat :: n <= |c| && Feed(s, c[..n]).complete
  }

  lemma {:induction false} PassCompletesCore(s: State, t: State, c: seq<Packet>)
    requires Core(s) == Core(t)
    ensures PassCompletes(s, c) <==> PassCompletes(t, c)
  {
    hide Feed;
    forall n: nat | n <= |c|
      ensures Feed(s, c[..n]).complete == Feed(t, c[..n]).complete
    {
      FeedCore(s, t, c[..n]);
      assert Core(Feed(s, c[..n])).complete == Core(Feed(t, c[..n])).complete;
    }
  }

  lemma {:induction false} HasRotation(c: seq<Packet>, k: nat)
    requires |c| > 0 && k > 0
    ensures AfterPasses(c, k).hasRotation
  {
    hide Add;
    FeedHasRotation(AfterPasses(c, k - 1), c);
  }

  lemma {:induction false} FeedHasRotation(s: State, h: seq<Packet>)
    requires |h| > 0
    ensures Feed(s, h).hasRotation
  {
    hide Splice;
  }

  /** Equal states, but for the count, after two passes stay so. */
  lemma {:induction false} Shifted(c: seq<Packet>, a: nat, b: nat, m: nat)
    requires Core(AfterPasses(c, a)) == Core(AfterPasses(c, b))
    ensures Core(AfterPasses(c, a + m)) == Core(AfterPasses(c, b + m))
  {
    hide Feed;
    if m > 0 {
      Shifted(c, a, b, m - 1);
      FeedCore(AfterPasses(c, a + m - 1), AfterPasses(c, b + m - 1), c);
    }
  }

  /** Once states have repeated, later passes do what earlier ones did. */
  lemma {:induction false} RepeatedPass(c: seq<Packet>, a: nat, b: nat, k: nat)
    requires a < b && Core(AfterPasses(c, a)) == Core(AfterPasses(c, b))
    requires forall i: nat :: i < b ==> !PassCompletes(AfterPasses(c, i), c)
    ensures !PassCompletes(AfterPasses(c, k), c)
    decreases k
  {
    hide PassCompletes, AfterPasses;
    if k >= b {
      RepeatedPass(c, a, b, k - (b - a));
      Shifted(c, a, b, k - b);
      PassCompletesCore(AfterPasses(c, k - (b - a)), AfterPasses(c, k), c);
    }
  }

  /** After a pass that opens nothing, the capture is used up. */
  lemma {:induction false} UsedUp(c: seq<Packet>, k: nat)
    requires |c| > 0 && k > 0 && NoneOpens(AfterPasses(c, k), c, 0)
    requires !PassCompletes(AfterPasses(c, k), c)
    ensures AfterPasses(c, k + 2) == AfterPasses(c, k + 1)
    ensures !PassCompletes(AfterPasses(c, k + 1), c)
  {
    hide Feed, NoneOpens, Ignored;
    var s := AfterPasses(c, k);
    HasRotation(c, k);
    assert c[..|c|] == c;
    QuietPass(s, c, |c|);
    var t := Feed(s, c);
    assert !t.complete;
    forall n: nat | n <= |c|
      ensures Feed(t, c[..n]) == t
    {
      IgnoredFeed(t, c[..n]);
    }
  }

  /** Some packet that opens a revolution in the pass that begins in state `s`. */
  lemma {:induction false} AnOpening(s: State, c: seq<Packet>) returns (i: nat)
    requires !NoneOpens(s, c, 0)
    ensures OpensAt(s, c, i)
  {
    hide OpensAt;
    i :| OpensAt(s, c, i);
  }

  lemma {:induction false} Pigeonhole(f: seq<nat>, c: nat)
    requires |f| > c && forall i :: 0 <= i < |f| ==> f[i] < c
    ensures exists a: nat, b: nat :: a < b < |f| && f[a] == f[b]
    decreases c
  {
    var last := |f| - 1;
    if a: nat :| a < last && f[a] == f[last] {
    } else {
      // Without the last value, which nothing else takes, the largest value can stand in for it.
      var g := seq(last, i requires 0 <= i < last => if f[i] == c - 1 then f[last] else f[i]);
      assert f[0] < c;
      Pigeonhole(g, c - 1);
      var a: nat, b: nat :| a < b < |g| && g[a] == g[b];
      assert f[a] == f[b];
    }
  }

  /** The openings of passes 1 to `m`, if each of them opens something. */
  lemma {:induction false} Openings(c: seq<Packet>, m: nat) returns (f: seq<nat>)
    requires forall k: nat :: k < m ==> !NoneOpens(AfterPasses(c, k), c, 0)
    ensures |f| == m && forall k: nat :: k < m ==> OpensAt(AfterPasses(c, k), c, f[k])
  {
    hide NoneOpens, OpensAt, AfterPasses;
    if m == 0 {
      f := [];
    } else {
      f := Openings(c, m - 1);
      var i := AnOpening(AfterPasses(c, m - 1), c);
      f := f + [i];
    }
  }

  /**
   A capture of |c| packets, in any order, that has not completed a revolution in its first
   |c| + 1 passes never does.
   */
  lemma {:induction false} PassesSuffice(c: seq<Packet>, k: nat)
    requires |c| > 0
    requires forall i: nat :: i <= |c| ==> !PassCompletes(AfterPasses(c, i), c)
    ensures !PassCompletes(AfterPasses(c, k), c)
  {
    hide PassCompletes, AfterPasses, NoneOpens, OpensAt, Feed, FromOpening;
    if j: nat :| 0 < j <= |c| && NoneOpens(AfterPasses(c, j), c, 0) {
      UsedUp(c, j);
      forall i: nat | i < j + 2
        ensures !PassCompletes(AfterPasses(c, i), c)
      {
      }
      RepeatedPass(c, j + 1, j + 2, k);
    } else {
      FirstPassOpens(c);
      var f := Openings(c, |c| + 1);
      forall i | 0 <= i < |f|
        ensures f[i] < |c|
      {
        OpensWithin(AfterPasses(c, i), c, f[i]);
      }
      Pigeonhole(f, |c|);
      var a: nat, b: nat :| a < b < |f| && f[a] == f[b];
      SameOpening(c, a, b, f[a]);
      RepeatedPass(c, a + 1, b + 1, k);
    }
  }

  lemma OpensWithin(s: State, c: seq<Packet>, i: nat)
    requires OpensAt(s, c, i)
    ensures i < |c|
  {
  }

  lemma {:induction false} FirstPassOpens(c: seq<Packet>)
    requires |c| > 0
    ensures !NoneOpens(AfterPasses(c, 0), c, 0)
  {
    assert OpensAt(Initial(), c, 0);
  }

  lemma {:induction false} SameOpening(c: seq<Packet>, a: nat, b: nat, i: nat)
    requires OpensAt(AfterPasses(c, a), c, i) && OpensAt(AfterPasses(c, b), c, i)
    ensures Core(AfterPasses(c, a + 1)) == Core(AfterPasses(c, b + 1))
  {
    hide Feed, FromOpening;
    PassFromOpening(AfterPasses(c, a), c, i);
    PassFromOpening(AfterPasses(c, b), c, i);
  }

  // ----- The loop over the file -----

  /** The passes of the loop after which the sniffer is where it was: every payload, and the restart. */
  function Round(file: seq<seq<byte>>): nat {
    |file| + 1
  }

  lemma {:induction false} PositionInRound(file: seq<seq<byte>>, position: nat, j: nat)
    requires position <= |file| && j <= Round(file)
    ensures PositionAfter(file, position, j) ==
            if position + j <= |file| then position + j else position + j - Round(file)
  {
    if j > 0 {
      PositionInRound(file, position, j - 1);
    }
  }

  lemma {:induction false} ReadSplit(file: seq<seq<byte>>, position: nat, a: nat, b: nat)
    requires position <= |file|
    ensures PositionAfter(file, position, a + b) == PositionAfter(file, PositionAfter(file, position, a), b)
    ensures ReadAfter(file, position, a + b) ==
            ReadAfter(file, position, a) + ReadAfter(file, PositionAfter(file, position, a), b)
  {
    if b > 0 {
      ReadSplit(file, position, a, b - 1);
      assert a + b - 1 == a + (b - 1);
    }
  }

  /** The packets of one round, from where the poll starts. */
  function Capture(file: seq<seq<byte>>, position: nat): seq<Packet>
    requires position <= |file|
  {
    Survivors(ReadAfter(file, position, Round(file)))
  }

  lemma {:induction false} RoundsArePasses(file: seq<seq<byte>>, position: nat, k: nat)
    requires position <= |file|
    ensures PositionAfter(file, position, k * Round(file)) == position
    ensures Run(Survivors(ReadAfter(file, position, k * Round(file)))) == AfterPasses(Capture(file, position), k)
  {
    hide Survivors, Run, Feed, PositionAfter, ReadAfter;
    if k == 0 {
      NothingRead(file, position);
    } else {
      var before := (k - 1) * Round(file);
      assert k * Round(file) == before + Round(file);
      RoundsArePasses(file, position, k - 1);
      PositionInRound(file, position, Round(file));
      ReadSplit(file, position, before, Round(file));
      FeedSurvivors(ReadAfter(file, position, before), ReadAfter(file, position, Round(file)));
    }
  }

  lemma NothingRead(file: seq<seq<byte>>, position: nat)
    requires position <= |file|
    ensures PositionAfter(file, position, 0) == position
    ensures Run(Survivors(ReadAfter(file, position, 0))) == Initial()
  {
  }

  lemma {:induction false} FeedSurvivors(a: seq<seq<byte>>, b: seq<seq<byte>>)
    ensures Run(Survivors(a + b)) == Feed(Run(Survivors(a)), Survivors(b))
  {
    hide Survivors, Run, Feed;
    SurvivorsConcat(a, b);
    RunIsFeed(Survivors(a + b));
    RunIsFeed(Survivors(a));
    FeedConcat(Initial(), Survivors(a), Survivors(b));
  }

  /** After `k` rounds and `m` passes more, the assembler is in the middle of its pass over the capture. */
  lemma {:induction false} InRound(file: seq<seq<byte>>, position: nat, k: nat, m: nat)
    requires position <= |file|
    ensures FullAfter(file, position, k * Round(file) + m) <==>
            Feed(AfterPasses(Capture(file, position), k), Survivors(ReadAfter(file, position, m))).complete
  {
    hide Survivors, Run, Feed;
    RoundsArePasses(file, position, k);
    ReadSplit(file, position, k * Round(file), m);
    FeedSurvivors(ReadAfter(file, position, k * Round(file)), ReadAfter(file, position, m));
  }

  lemma {:induction false} ReadInRound(file: seq<seq<byte>>, position: nat, m: nat)
    requires position <= |file| && m <= Round(file)
    ensures Survivors(ReadAfter(file, position, m)) <= Capture(file, position)
  {
    hide Survivors;
    var rest := Round(file) - m;
    ReadSplit(file, position, m, rest);
    SurvivorsConcat(ReadAfter(file, position, m), ReadAfter(file, PositionAfter(file, position, m), rest));
  }

  lemma {:induction false} ReadOne(file: seq<seq<byte>>, position: nat, m: nat)
    requires position <= |file| && m > 0
    ensures var before := |Survivors(ReadAfter(file, position, m - 1))|;
            before <= |Survivors(ReadAfter(file, position, m))| <= before + 1
  {
    hide Survivors;
    var read, before := ReadAfter(file, position, m - 1), PositionAfter(file, position, m - 1);
    if before < |file| {
      SurvivorsSnoc(read, file[before]);
    } else {
      assert ReadAfter(file, position, m) == read;
    }
  }

  /** Every beginning of the capture is what some number of passes has read of it. */
  lemma {:induction false} ReadUpTo(file: seq<seq<byte>>, position: nat, m: nat, n: nat) returns (i: nat)
    requires position <= |file| && m <= Round(file) && n <= |Survivors(ReadAfter(file, position, m))|
    ensures i <= m && |Survivors(ReadAfter(file, position, i))| == n
  {
    hide Survivors, ReadAfter;
    if |Survivors(ReadAfter(file, position, m))| == n {
      i := m;
    } else {
      ReadNothing(file, position);
      ReadOne(file, position, m);
      i := ReadUpTo(file, position, m - 1, n);
    }
  }

  lemma ReadNothing(file: seq<seq<byte>>, position: nat)
    requires position <= |file|
    ensures |Survivors(ReadAfter(file, position, 0))| == 0
  {
  }

  /** The revolution is complete after `k` rounds and `m` passes more. */
  ghost predicate FullInRound(file: seq<seq<byte>>, position: nat, k: nat, m: nat)
    requires position <= |file|
  {
    FullAfter(file, position, k * Round(file) + m)
  }

  /** A revolution is completed in round `k` exactly if it is completed in pass `k` over the capture. */
  lemma {:induction false} RoundCompletes(file: seq<seq<byte>>, position: nat, k: nat)
    requires position <= |file|
    ensures PassCompletes(AfterPasses(Capture(file, position), k), Capture(file, position)) <==>
            exists m: nat :: m <= Round(file) && FullInRound(file, position, k, m)
  {
    hide Survivors, Run, Feed, FullAfter, AfterPasses, ReadAfter;
    var c := Capture(file, position);
    var s := AfterPasses(c, k);
    if n: nat :| n <= |c| && Feed(s, c[..n]).complete {
      var m := ReadUpTo(file, position, Round(file), n);
      ReadInRound(file, position, m);
      InRound(file, position, k, m);
      assert c[..n] == Survivors(ReadAfter(file, position, m));
      assert FullInRound(file, position, k, m);
    }
    if m: nat :| m <= Round(file) && FullInRound(file, position, k, m) {
      ReadInRound(file, position, m);
      InRound(file, position, k, m);
      assert c[..|Survivors(ReadAfter(file, position, m))|] == Survivors(ReadAfter(file, position, m));
    }
  }

  /** How many passes of the loop decide whether a poll over this file can ever complete. */
  function Bound(file: seq<seq<byte>>, position: nat): nat
    requires position <= |file|
  {
    (|Capture(file, position)| + 1) * Round(file)
  }

  lemma {:induction false} Within(k: nat, m: nat, rounds: nat, round: nat)
    requires k <= rounds && m <= round
    ensures k * round + m <= (rounds + 1) * round
  {
    assert (rounds + 1) * round - (k * round + m) == (rounds - k) * round + (round - m);
  }

  lemma {:induction false} NoEarlyPass(file: seq<seq<byte>>, position: nat, i: nat)
    requires position <= |file| && i <= |Capture(file, position)|
    requires !FullInTime(file, position, Bound(file, position))
    ensures !PassCompletes(AfterPasses(Capture(file, position), i), Capture(file, position))
  {
    hide FullAfter, PassCompletes, AfterPasses, Capture;
    RoundCompletes(file, position, i);
    if m: nat :| m <= Round(file) && FullInRound(file, position, i, m) {
      Within(i, m, |Capture(file, position)|, Round(file));
    }
  }

  lemma {:induction false} NeverLater(file: seq<seq<byte>>, position: nat, k: nat, m: nat)
    requires position <= |file| && m <= Round(file)
    requires !FullInTime(file, position, Bound(file, position))
    ensures !FullInRound(file, position, k, m)
  {
    hide FullAfter, PassCompletes, AfterPasses, Capture, FullInTime, Bound, FullInRound;
    var c := Capture(file, position);
    forall i: nat | i <= |c|
      ensures !PassCompletes(AfterPasses(c, i), c)
    {
      NoEarlyPass(file, position, i);
    }
    if c != [] {
      PassesSuffice(c, k);
    } else {
      NothingToFeed(k);
    }
    RoundCompletes(file, position, k);
  }

  lemma {:induction false} NeverAtAll(file: seq<seq<byte>>, position: nat, j: nat)
    requires position <= |file| && !FullInTime(file, position, Bound(file, position))
    ensures !FullAfter(file, position, j)
  {
    hide FullAfter, FullInTime, Bound;
    var k, m := j / Round(file), j % Round(file);
    assert j == k * Round(file) + m;
    NeverLater(file, position, k, m);
  }

  /**
   When a FULL poll over a capture of any order completes: it does so within one round more than the
   capture has packets, or never, however long the node runs.
   */
  lemma {:induction false} BoundSuffices(file: seq<seq<byte>>, position: nat, okLeft: nat)
    requires position <= |file|
    ensures FullInTime(file, position, okLeft) <==> FullInTime(file, position, Min(okLeft, Bound(file, position)))
  {
    hide FullAfter, Bound;
    if okLeft > Bound(file, position) && !FullInTime(file, position, Bound(file, position)) {
      forall j: nat
        ensures !FullAfter(file, position, j)
      {
        NeverAtAll(file, position, j);
      }
    }
  }

  lemma {:induction false} NothingToFeed(k: nat)
    ensures !PassCompletes(AfterPasses([], k), [])
  {
    if k > 0 {
      NothingToFeed(k - 1);
      assert Feed(AfterPasses([], k - 1), []) == AfterPasses([], k - 1);
    }
  }
}
