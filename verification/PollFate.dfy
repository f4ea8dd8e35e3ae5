/**
 How a FULL poll over UDP ends, told from its start: with a complete scan, with an incomplete one
 because the shutdown was noticed between two datagrams, or without any because it was noticed
 while waiting for one.
 */
module PollFate {
  import opened M360Packet
  import opened FullScanAssembler
  import opened ScanDelivery
  import opened Backoff
  import opened CallBudget
  import opened Outcomes

  /** The datagrams of the first `j` passes complete a revolution. */
  ghost predicate CompleteAt(s: Start, j: nat) {
    Run(Survivors(Caught(s, j))).complete
  }

  ghost predicate PendingBefore(s: Start, j: nat) {
    forall i: nat :: i < j ==> !CompleteAt(s, i)
  }

  /** The revolution is complete after `j` passes, and all calls up to there are answered with true. */
  ghost predicate EndsComplete(s: Start, j: nat) {
    Walk(s, j).Some? && PendingBefore(s, j) && CompleteAt(s, j)
  }

  /** The call at the head of the poll's own loop, before pass `j`, is the first answered with false. */
  ghost predicate EndsEarly(s: Start, j: nat) {
    Walk(s, j).Some? && Walk(s, j).value.ok == 0 && Heads(s, j) == 2 && PendingBefore(s, j + 1)
  }

  /** The first call answered with false is made while waiting for a datagram in pass `j`. */
  ghost predicate EndsWaiting(s: Start, j: nat) {
    && Walk(s, j).Some? && Walk(s, j + 1).None?
    && !(Walk(s, j).value.ok == 0 && Heads(s, j) == 2)
    && PendingBefore(s, j + 1)
  }

  ghost predicate Complete(s: Start) {
    exists j: nat :: EndsComplete(s, j)
  }

  ghost predicate Early(s: Start) {
    exists j: nat :: EndsEarly(s, j)
  }

  ghost predicate Waiting(s: Start) {
    exists j: nat :: EndsWaiting(s, j)
  }

  /** A poll cannot go on after the pass at which it has ended. */
  lemma {:induction false} EndsThere(s: Start, i: nat, j: nat)
    requires i < j && (EndsComplete(s, i) || EndsEarly(s, i) || EndsWaiting(s, i))
    ensures !(Walk(s, j).Some? && PendingBefore(s, j))
  {
    hide CompleteAt, Walk;
    if EndsComplete(s, i) {
      assert CompleteAt(s, i);
    } else {
      WalkStep(s, i);
      WalkEnds(s, i + 1, j);
    }
  }

  lemma {:induction false} Exclusive(s: Start, i: nat, j: nat)
    ensures !(EndsComplete(s, i) && EndsEarly(s, j)) && !(EndsComplete(s, i) && EndsWaiting(s, j))
    ensures !(EndsEarly(s, i) && EndsWaiting(s, j))
  {
    hide Walk, CompleteAt;
    if i < j {
      if EndsComplete(s, i) || EndsEarly(s, i) {
        EndsThere(s, i, j);
      }
    } else if j < i {
      if EndsEarly(s, j) || EndsWaiting(s, j) {
        EndsThere(s, j, i);
      }
    }
    assert PendingBefore(s, i + 1) ==> !CompleteAt(s, i);
    assert PendingBefore(s, j + 1) && i <= j ==> PendingBefore(s, i + 1);
    assert PendingBefore(s, i + 1) && j <= i ==> PendingBefore(s, j + 1);
  }

  /** At most one of the three ends is the fate of a poll. */
  lemma {:induction false} OneFate(s: Start)
    ensures !(Complete(s) && Early(s)) && !(Complete(s) && Waiting(s)) && !(Early(s) && Waiting(s))
  {
    hide EndsComplete, EndsEarly, EndsWaiting;
    forall i: nat, j: nat
      ensures !(EndsComplete(s, i) && EndsEarly(s, j)) && !(EndsComplete(s, i) && EndsWaiting(s, j))
      ensures !(EndsEarly(s, i) && EndsWaiting(s, j))
    {
      Exclusive(s, i, j);
    }
  }

  // ----- The parts of a poll -----

  /** A datagram waited for from pass `j` on arrives `m` passes later. */
  lemma {:induction false} NextDatagram(s: Start, j: nat, inner: Start, m: nat, data: seq<byte>, left: Left)
    requires Walk(s, j).Some? && Walk(s, j).value.ok > 0 && Heads(s, j) == 2
    requires inner == Start(s.world, 1, Walk(s, j).value.ok - 1, s.polls + j, Walk(s, j).value.opens)
    requires Receives(inner, m, data, left)
    requires PendingBefore(s, j + 1)
    ensures Walk(s, j + m + 1) == Some(left) && Heads(s, j + m + 1) == 2
    ensures Caught(s, j + m + 1) == Caught(s, j) + [data]
    ensures PendingBefore(s, j + m + 1)
  {
    hide Walk, Delivering, Run;
    Nested(s, j, inner, m + 1);
    forall i: nat | j <= i < j + m + 1
      ensures Caught(s, i) == Caught(s, j)
    {
      CaughtQuiet(s, j, i - j);
    }
    forall i: nat | i < j + m + 1
      ensures !CompleteAt(s, i)
    {
      assert !CompleteAt(s, if i < j then i else j);
    }
  }

  /** The node is shut down while a datagram is waited for from pass `j` on. */
  lemma {:induction false} NoDatagram(s: Start, j: nat, inner: Start, m: nat)
    requires Walk(s, j).Some? && Walk(s, j).value.ok > 0 && Heads(s, j) == 2
    requires inner == Start(s.world, 1, Walk(s, j).value.ok - 1, s.polls + j, Walk(s, j).value.opens)
    requires GivesUp(inner, m)
    requires PendingBefore(s, j + 1)
    ensures EndsWaiting(s, j + m)
  {
    hide Walk, Delivering, Run;
    Nested(s, j, inner, m + 1);
    if m > 0 {
      Nested(s, j, inner, m);
      assert !Delivering(s.world, s.polls + j + m - 1);
    }
    forall i: nat | i < j + m + 1
      ensures !CompleteAt(s, i)
    {
      assert !CompleteAt(s, if i < j then i else j);
      if i > j {
        CaughtQuiet(s, j, i - j);
      }
    }
  }

  // ----- The closed form: what a poll needs does not depend on what it is granted -----

  /** Attempt `a` of a recovery that begins with opening `first` is the first to succeed. */
  ghost predicate FirstSuccess(w: Outside, first: nat, a: nat) {
    w.opens(first + a).Succeeds() && forall i: nat :: first <= i < first + a ==> !w.opens(i).Succeeds()
  }

  ghost predicate NeverSucceeds(w: Outside, first: nat) {
    forall i: nat :: i >= first ==> !w.opens(i).Succeeds()
  }

  /** The calls made by attempts `k` to `k + a` of a recovery. */
  function RecoveryCalls(w: Outside, k: nat, a: nat): (n: nat)
    decreases a
  {
    Slices(Delay(w.initial, w.longest, k)) + 2 + if a == 0 then 0 else RecoveryCalls(w, k + 1, a - 1)
  }

  lemma {:induction false} RetryClosed(w: Outside, k: nat, left: Left, a: nat)
    requires FirstSuccess(w, left.opens, a)
    ensures Retry(w, k, left) ==
            if left.ok >= RecoveryCalls(w, k, a) then Some(Left(left.ok - RecoveryCalls(w, k, a), left.opens + a + 1))
            else None
    decreases a
  {
    hide Slices, Delay, Retry;
    RetryStep(w, k, left);
    var calls := Slices(Delay(w.initial, w.longest, k)) + 2;
    if a > 0 {
      assert !w.opens(left.opens).Succeeds();
      if left.ok >= calls {
        RetryClosed(w, k + 1, Left(left.ok - calls, left.opens + 1), a - 1);
      }
    }
  }

  lemma {:induction false} RetryEndless(w: Outside, k: nat, left: Left)
    requires NeverSucceeds(w, left.opens)
    ensures Retry(w, k, left).None?
    decreases left.ok
  {
    hide Slices, Delay, Retry;
    RetryStep(w, k, left);
    var calls := Slices(Delay(w.initial, w.longest, k)) + 2;
    if left.ok >= calls {
      RetryEndless(w, k + 1, Left(left.ok - calls, left.opens + 1));
    }
  }

  predicate FaultAt(s: Start, j: nat) {
    s.world.polls(s.polls + j).Faulty()
  }

  /** The openings used up before pass `j`, if the recovery in pass `i` fails `fails(i)` times first. */
  function OpensAt(s: Start, fails: nat -> nat, j: nat): nat {
    if j == 0 then s.opens
    else OpensAt(s, fails, j - 1) + if FaultAt(s, j - 1) then fails(j - 1) + 1 else 0
  }

  /** The calls made before pass `j` is prepared: the heads and the recoveries of the passes before. */
  function Need(s: Start, fails: nat -> nat, j: nat): nat {
    if j == 0 then 0
    else
      Need(s, fails, j - 1) + Heads(s, j - 1) +
      if FaultAt(s, j - 1) then RecoveryCalls(s.world, 0, fails(j - 1)) else 0
  }

  /** The recoveries of the first `n` passes all succeed in the end, after so many failures. */
  ghost predicate Finishes(s: Start, fails: nat -> nat, n: nat) {
    forall j: nat :: j < n && FaultAt(s, j) ==> FirstSuccess(s.world, OpensAt(s, fails, j), fails(j))
  }

  lemma {:induction false} PassClosed(s: Start, j: nat, left: Left, a: nat)
    requires FaultAt(s, j) ==> FirstSuccess(s.world, left.opens, a)
    ensures var calls := if FaultAt(s, j) then RecoveryCalls(s.world, 0, a) else 0;
            Pass(s.world, s.polls + j, left) ==
            if left.ok < calls then None
            else Some(Left(left.ok - calls, left.opens + if FaultAt(s, j) then a + 1 else 0))
  {
    hide Retry, FirstSuccess, RecoveryCalls;
    if FaultAt(s, j) {
      RetryClosed(s.world, 0, left, a);
    }
  }

  /** The threshold law: `j` passes are got through exactly with the answers they need. */
  lemma {:induction false} WalkClosed(s: Start, fails: nat -> nat, n: nat, j: nat)
    requires Finishes(s, fails, n) && j <= n
    ensures Walk(s, j) ==
            if s.ok >= Need(s, fails, j) then Some(Left(s.ok - Need(s, fails, j), OpensAt(s, fails, j))) else None
  {
    hide FaultAt, Pass, FirstSuccess, RecoveryCalls, Walk, Heads;
    if j == 0 {
      WalkStart(s);
    } else {
      WalkClosed(s, fails, n, j - 1);
      if Walk(s, j - 1).Some? {
        WalkStep(s, j - 1);
        var left := Walk(s, j - 1).value;
        if left.ok >= Heads(s, j - 1) {
          PassClosed(s, j - 1, Left(left.ok - Heads(s, j - 1), left.opens), fails(j - 1));
        }
      } else {
        WalkEnds(s, j - 1, j);
      }
    }
  }

  /** `n` passes complete a revolution; pass `m` meets a fault for good; or neither in `n` passes. */
  ghost predicate Completing(s: Start, fails: nat -> nat, n: nat) {
    Finishes(s, fails, n) && CompleteAt(s, n) && PendingBefore(s, n)
  }

  ghost predicate Endless(s: Start, fails: nat -> nat, m: nat) {
    && Finishes(s, fails, m) && PendingBefore(s, m + 1)
    && FaultAt(s, m) && NeverSucceeds(s.world, OpensAt(s, fails, m))
  }

  ghost predicate Barren(s: Start, fails: nat -> nat, n: nat) {
    Finishes(s, fails, n) && PendingBefore(s, n)
  }

  /** Exactly the true answers needed before some head of the poll's own loop, up to pass `n`, are granted. */
  ghost predicate JustToHead(s: Start, fails: nat -> nat, n: nat) {
    exists j: nat :: j < n && Heads(s, j) == 2 && s.ok == Need(s, fails, j)
  }

  lemma {:induction false} EarlyClosed(s: Start, fails: nat -> nat, n: nat, j: nat)
    requires Finishes(s, fails, n) && PendingBefore(s, n) && j < n
    ensures EndsEarly(s, j) <==> Heads(s, j) == 2 && s.ok == Need(s, fails, j)
    ensures !EndsComplete(s, j)
  {
    hide Walk, CompleteAt, Need, Heads, OpensAt;
    WalkClosed(s, fails, n, j);
    assert !CompleteAt(s, j);
  }

  lemma {:induction false} LastAffordable(s: Start, fails: nat -> nat, n: nat)
    requires s.ok < Need(s, fails, n)
    ensures exists j: nat :: j < n && Need(s, fails, j) <= s.ok < Need(s, fails, j + 1)
  {
    if Need(s, fails, n - 1) <= s.ok {
      assert n - 1 < n && Need(s, fails, n - 1) <= s.ok < Need(s, fails, n - 1 + 1);
    } else {
      LastAffordable(s, fails, n - 1);
    }
  }

  /** With too few answers for `n` passes, and not just up to a head, the poll ends waiting. */
  lemma {:induction false} TooFew(s: Start, fails: nat -> nat, n: nat)
    requires Finishes(s, fails, n) && PendingBefore(s, n)
    requires s.ok < Need(s, fails, n) && !JustToHead(s, fails, n)
    ensures Waiting(s)
  {
    hide Walk, CompleteAt, Need, Heads, OpensAt;
    LastAffordable(s, fails, n);
    var j: nat :| j < n && Need(s, fails, j) <= s.ok < Need(s, fails, j + 1);
    WalkClosed(s, fails, n, j);
    WalkClosed(s, fails, n, j + 1);
    assert EndsWaiting(s, j);
  }

  /**
   A revolution that completes. If `n` passes complete it and the recoveries in them succeed in
   the end, the end of the poll is decided by the number of true answers alone: with those
   needed for all `n` passes it is complete; with exactly those needed before the head of the
   loop is asked again it is published incomplete; otherwise nothing is.
   */
  lemma {:induction false} FateByNeed(s: Start, fails: nat -> nat, n: nat)
    requires s.heads == 2 && Completing(s, fails, n)
    ensures Complete(s) <==> s.ok >= Need(s, fails, n)
    ensures Early(s) <==> JustToHead(s, fails, n)
    ensures Waiting(s) <==> s.ok < Need(s, fails, n) && !JustToHead(s, fails, n)
  {
    hide Walk, CompleteAt, Need, Heads, OpensAt;
    WalkClosed(s, fails, n, n);
    assert EndsComplete(s, n) <==> s.ok >= Need(s, fails, n);
    forall j: nat
      ensures EndsEarly(s, j) <==> j < n && Heads(s, j) == 2 && s.ok == Need(s, fails, j)
      ensures EndsComplete(s, j) ==> j == n
    {
      if j < n {
        EarlyClosed(s, fails, n, j);
      } else {
        assert PendingBefore(s, j + 1) ==> !CompleteAt(s, n);
        assert j > n && PendingBefore(s, j) ==> !CompleteAt(s, n);
      }
    }
    if s.ok < Need(s, fails, n) && !JustToHead(s, fails, n) {
      TooFew(s, fails, n);
    }
    OneFate(s);
  }

  /**
   A recovery that never succeeds. If pass `m` meets a fault after which no opening succeeds any
   more, and nothing is complete by then, the poll is never complete, however long the node runs.
   */
  lemma {:induction false} FateEndless(s: Start, fails: nat -> nat, m: nat)
    requires s.heads == 2 && Endless(s, fails, m)
    ensures !Complete(s)
    ensures Early(s) <==> JustToHead(s, fails, m + 1)
    ensures Waiting(s) <==> !JustToHead(s, fails, m + 1)
  {
    hide Walk, CompleteAt, Need, Heads, OpensAt, Retry;
    WalkClosed(s, fails, m, m);
    NoFurther(s, fails, m);
    forall j: nat
      ensures EndsEarly(s, j) <==> j <= m && Heads(s, j) == 2 && s.ok == Need(s, fails, j)
      ensures !EndsComplete(s, j)
    {
      if j > m {
        WalkEnds(s, m + 1, j);
      } else {
        assert !CompleteAt(s, j);
        WalkClosed(s, fails, m, j);
      }
    }
    assert JustToHead(s, fails, m) ==> JustToHead(s, fails, m + 1);
    if !JustToHead(s, fails, m + 1) {
      if s.ok < Need(s, fails, m) {
        TooFew(s, fails, m);
      } else {
        assert EndsWaiting(s, m);
      }
    }
    OneFate(s);
  }

  lemma {:induction false} NoFurther(s: Start, fails: nat -> nat, m: nat)
    requires Finishes(s, fails, m) && FaultAt(s, m) && NeverSucceeds(s.world, OpensAt(s, fails, m))
    ensures Walk(s, m + 1).None?
  {
    hide Walk, Need, Heads, OpensAt, Retry, NeverSucceeds;
    WalkClosed(s, fails, m, m);
    if Walk(s, m).Some? {
      WalkStep(s, m);
      var left := Walk(s, m).value;
      if left.ok >= Heads(s, m) {
        RetryEndless(s.world, 0, Left(left.ok - Heads(s, m), left.opens));
      }
    } else {
      WalkEnds(s, m, m + 1);
    }
  }

  lemma {:induction false} NeedGrows(s: Start, fails: nat -> nat, j: nat)
    requires s.heads == 2
    ensures Need(s, fails, j) >= j
  {
    if j > 0 {
      NeedGrows(s, fails, j - 1);
    }
  }

  /** And a script that never completes a revolution although every recovery succeeds. */
  lemma {:induction false} FateBarren(s: Start, fails: nat -> nat)
    requires s.heads == 2 && forall n: nat :: Barren(s, fails, n)
    ensures !Complete(s)
    ensures Early(s) <==> JustToHead(s, fails, s.ok + 1)
    ensures Waiting(s) <==> !JustToHead(s, fails, s.ok + 1)
  {
    hide Walk, CompleteAt, Need, Heads, OpensAt, Finishes;
    forall j: nat
      ensures EndsEarly(s, j) <==> j < s.ok + 1 && Heads(s, j) == 2 && s.ok == Need(s, fails, j)
      ensures !EndsComplete(s, j)
    {
      assert Barren(s, fails, j + 1);
      EarlyClosed(s, fails, j + 1, j);
      NeedGrows(s, fails, j);
    }
    if !JustToHead(s, fails, s.ok + 1) {
      NeedGrows(s, fails, s.ok + 1);
      assert Barren(s, fails, s.ok + 1);
      TooFew(s, fails, s.ok + 1);
    }
    OneFate(s);
  }

  // ----- These are all the scripts there are -----

  /** The failing attempts of a recovery that begins with opening `first`, if it succeeds in the end. */
  ghost function Failing(w: Outside, first: nat): (a: nat)
    ensures (exists b: nat :: FirstSuccess(w, first, b)) ==> FirstSuccess(w, first, a)
  {
    if b: nat :| FirstSuccess(w, first, b) then b else 0
  }

  ghost function Opened(s: Start, j: nat): nat {
    if j == 0 then s.opens
    else Opened(s, j - 1) + if FaultAt(s, j - 1) then Failing(s.world, Opened(s, j - 1)) + 1 else 0
  }

  ghost function Failures(s: Start): nat -> nat {
    (j: nat) => Failing(s.world, Opened(s, j))
  }

  lemma {:induction false} OpenedIsOpensAt(s: Start, j: nat)
    ensures OpensAt(s, Failures(s), j) == Opened(s, j)
  {
    hide FaultAt, Failing, FirstSuccess;
    if j > 0 {
      OpenedIsOpensAt(s, j - 1);
    }
  }

  lemma {:induction false} SuccessOrNever(w: Outside, first: nat, i: nat)
    requires i >= first && w.opens(i).Succeeds()
    ensures exists a: nat :: FirstSuccess(w, first, a)
    decreases i
  {
    if j: nat :| first <= j < i && w.opens(j).Succeeds() {
      SuccessOrNever(w, first, j);
    } else {
      assert FirstSuccess(w, first, i - first);
    }
  }

  lemma {:induction false} Dichotomy(w: Outside, first: nat)
    ensures FirstSuccess(w, first, Failing(w, first)) || NeverSucceeds(w, first)
  {
    hide Failing, FirstSuccess;
    if i: nat :| i >= first && w.opens(i).Succeeds() {
      SuccessOrNever(w, first, i);
    }
  }

  /** Either the script is barren for one more pass, or it has just completed or run into an endless recovery. */
  lemma {:induction false} OnePass(s: Start, n: nat)
    requires Barren(s, Failures(s), n)
    ensures Completing(s, Failures(s), n) || Endless(s, Failures(s), n) || Barren(s, Failures(s), n + 1)
  {
    hide CompleteAt, FirstSuccess, NeverSucceeds, FaultAt, OpensAt, Opened, Failing;
    OpenedIsOpensAt(s, n);
    Dichotomy(s.world, Opened(s, n));
  }

  lemma {:induction false} Passes(s: Start, n: nat)
    ensures || Barren(s, Failures(s), n)
            || (exists i: nat :: Completing(s, Failures(s), i))
            || (exists i: nat :: Endless(s, Failures(s), i))
  {
    hide Completing, Endless;
    if n > 0 {
      Passes(s, n - 1);
      if Barren(s, Failures(s), n - 1) {
        OnePass(s, n - 1);
      }
    }
  }

  /** Every start belongs to one of the three cases, so its fate is known in closed form. */
  lemma {:induction false} EveryScript(s: Start)
    ensures || (exists n: nat :: Completing(s, Failures(s), n))
            || (exists m: nat :: Endless(s, Failures(s), m))
            || (forall n: nat :: Barren(s, Failures(s), n))
  {
    hide Completing, Endless, Barren;
    forall n: nat
      ensures || Barren(s, Failures(s), n)
              || (exists i: nat :: Completing(s, Failures(s), i))
              || (exists i: nat :: Endless(s, Failures(s), i))
    {
      Passes(s, n);
    }
  }

  // ----- Scripts without faults -----

  ghost predicate NoFaults(s: Start) {
    forall n: nat :: n >= s.polls ==> !s.world.polls(n).Faulty()
  }

  /** Then the calls before pass `j` are the heads alone. */
  function Calls(s: Start, j: nat): nat {
    if j == 0 then 0 else Calls(s, j - 1) + Heads(s, j - 1)
  }

  lemma {:induction false} NeedWithoutFaults(s: Start, fails: nat -> nat, j: nat)
    requires NoFaults(s)
    ensures Need(s, fails, j) == Calls(s, j) && Finishes(s, fails, j)
  {
    if j > 0 {
      NeedWithoutFaults(s, fails, j - 1);
    }
  }

  /** Without faults, with idle and skipped answers in between, only the heads count. */
  lemma {:induction false} FaultFreeFate(s: Start, n: nat)
    requires NoFaults(s) && s.heads == 2 && CompleteAt(s, n) && PendingBefore(s, n)
    ensures Complete(s) <==> s.ok >= Calls(s, n)
    ensures Early(s) <==> exists j: nat :: j < n && Heads(s, j) == 2 && s.ok == Calls(s, j)
    ensures Waiting(s) <==> s.ok < Calls(s, n) && !Early(s)
  {
    hide Complete, Early, Waiting, CompleteAt, PendingBefore, Finishes, Need, Calls, Heads;
    var fails: nat -> nat := _ => 0;
    forall j: nat
      ensures Need(s, fails, j) == Calls(s, j)
    {
      NeedWithoutFaults(s, fails, j);
    }
    NeedWithoutFaults(s, fails, n);
    FateByNeed(s, fails, n);
    assert JustToHead(s, fails, n) ==> exists j: nat :: j < n && Heads(s, j) == 2 && s.ok == Calls(s, j);
    if j: nat :| j < n && Heads(s, j) == 2 && s.ok == Calls(s, j) {
      assert s.ok == Need(s, fails, j);
    }
  }

  lemma {:induction false} TwoEach(s: Start, j: nat)
    requires s.heads == 2 && forall n: nat :: n >= s.polls ==> Delivering(s.world, n)
    ensures Calls(s, j) == 2 * j && Heads(s, j) == 2
  {
    if j > 0 {
      TwoEach(s, j - 1);
      assert Delivering(s.world, s.polls + j - 1);
    }
  }

  lemma {:induction false} EvenCalls(s: Start, n: nat)
    requires s.heads == 2 && (forall k: nat :: k >= s.polls ==> Delivering(s.world, k))
    ensures (exists j: nat :: j < n && Heads(s, j) == 2 && s.ok == Calls(s, j)) <==> s.ok % 2 == 0 && s.ok / 2 < n
  {
    hide Calls, Heads, Delivering;
    forall j: nat
      ensures Calls(s, j) == 2 * j && Heads(s, j) == 2
    {
      TwoEach(s, j);
    }
    var half := s.ok / 2;
    assert Heads(s, half) == 2 && Calls(s, half) == 2 * half;
  }

  /**
   If every answer delivers a datagram and `n` of them complete a revolution, an incomplete scan
   is published exactly for an even number of true answers below 2n, and none exactly for an odd
   one.
   */
  lemma {:induction false} EveryAnswerDelivers(s: Start, n: nat)
    requires s.heads == 2 && (forall k: nat :: k >= s.polls ==> Delivering(s.world, k))
    requires CompleteAt(s, n) && PendingBefore(s, n)
    ensures Complete(s) <==> s.ok >= 2 * n
    ensures Early(s) <==> s.ok % 2 == 0 && s.ok / 2 < n
    ensures Waiting(s) <==> s.ok % 2 == 1 && s.ok < 2 * n
  {
    forall k: nat | k >= s.polls
      ensures !s.world.polls(k).Faulty()
    {
      assert Delivering(s.world, k);
    }
    hide CompleteAt, Complete, Early, Waiting, Delivering, Calls;
    FaultFreeFate(s, n);
    EvenCalls(s, n);
    TwoEach(s, n);
  }
}
