/**
 How far a poll gets before the node is shut down, counted in answers of `ros::ok()`: which of
 its calls is the first to be answered with false. Everything is told from the start of the
 poll, the kernel's answers and the configured delays.
 */
module CallBudget {
  import opened Outcomes
  import opened M360Packet
  import opened ReceiverSocket
  import opened Backoff

  /** What a poll depends on besides its start. */
  datatype Outside = Outside(
    polls: nat -> PollAnswers,
    opens: nat -> OpenReply,
    filter: Option<Address>,
    initial: int32,
    longest: int32)

  /** True answers of `ros::ok()` still to come, and answers of `open_socket` used up. */
  datatype Left = Left(ok: nat, opens: nat)

  /**
   The retry loop from attempt `k` on: each attempt asks at the head of the loop, once for each
   slice and once before it reopens. None means that some call is answered with false.
   */
  function Retry(w: Outside, k: nat, left: Left): Option<Left>
    decreases left.ok
  {
    var calls := Slices(Delay(w.initial, w.longest, k)) + 2;
    if left.ok < calls then None
    else
      var rest := Left(left.ok - calls, left.opens + 1);
      if w.opens(left.opens).Succeeds() then Some(rest) else Retry(w, k + 1, rest)
  }

  lemma {:induction false} RetryStep(w: Outside, k: nat, left: Left)
    ensures var calls := Slices(Delay(w.initial, w.longest, k)) + 2;
            Retry(w, k, left) ==
            if left.ok < calls then None
            else if w.opens(left.opens).Succeeds() then Some(Left(left.ok - calls, left.opens + 1))
            else Retry(w, k + 1, Left(left.ok - calls, left.opens + 1))
  {
  }

  /** One answer of the kernel: only a fault, which has to be recovered from, asks any further. */
  function Pass(w: Outside, n: nat, left: Left): Option<Left> {
    if w.polls(n).Faulty() then Retry(w, 0, left) else Some(left)
  }

  predicate Delivering(w: Outside, n: nat) {
    w.polls(n).Delivers(PKT_LEN, w.filter)
  }

  /**
   Where a loop starts: `heads` calls precede its first answer of the kernel, one in
   `receive_udp_packet` and two in a FULL poll, whose own loop asks before each datagram.
   */
  datatype Start = Start(world: Outside, heads: nat, ok: nat, polls: nat, opens: nat)

  /** The calls before pass `j`: the datagram of the pass before has to be accepted first. */
  function Heads(s: Start, j: nat): nat {
    if j == 0 then s.heads else if Delivering(s.world, s.polls + j - 1) then 2 else 1
  }

  /** What is left after `j` passes, if the node has not been shut down during them. */
  function Walk(s: Start, j: nat): Option<Left> {
    if j == 0 then Some(Left(s.ok, s.opens))
    else
      match Walk(s, j - 1)
      case None => None
      case Some(left) =>
        if left.ok < Heads(s, j - 1) then None
        else Pass(s.world, s.polls + j - 1, Left(left.ok - Heads(s, j - 1), left.opens))
  }

  /** The datagrams among the answers of the first `j` passes. */
  function Caught(s: Start, j: nat): seq<seq<byte>> {
    if j == 0 then []
    else
      Caught(s, j - 1) +
      if Delivering(s.world, s.polls + j - 1) then [s.world.polls(s.polls + j - 1).received.data] else []
  }

  /** No datagram in the first `m` passes. */
  ghost predicate Quiet(s: Start, m: nat) {
    forall n: nat :: s.polls <= n < s.polls + m ==> !Delivering(s.world, n)
  }

  /** Pass `m` is the first to deliver. */
  ghost predicate Receives(s: Start, m: nat, data: seq<byte>, left: Left) {
    && Quiet(s, m) && Delivering(s.world, s.polls + m)
    && data == s.world.polls(s.polls + m).received.data
    && Walk(s, m + 1) == Some(left)
  }

  /** The node is shut down before pass `m` is over, and nothing has been delivered. */
  ghost predicate GivesUp(s: Start, m: nat) {
    Quiet(s, m) && Walk(s, m).Some? && Walk(s, m + 1).None?
  }

  lemma {:induction false} QuietMore(s: Start, m: nat)
    requires Quiet(s, m) && !Delivering(s.world, s.polls + m)
    ensures Quiet(s, m + 1)
  {
  }

  lemma {:induction false} WalkStart(s: Start)
    ensures Walk(s, 0) == Some(Left(s.ok, s.opens)) && Quiet(s, 0)
  {
  }

  lemma {:induction false} WalkStep(s: Start, j: nat)
    requires Walk(s, j).Some?
    ensures var left := Walk(s, j).value;
            Walk(s, j + 1) ==
            if left.ok < Heads(s, j) then None
            else Pass(s.world, s.polls + j, Left(left.ok - Heads(s, j), left.opens))
  {
  }

  /** What a shutdown has ended stays ended. */
  lemma {:induction false} WalkEnds(s: Start, i: nat, j: nat)
    requires i <= j && Walk(s, i).None?
    ensures Walk(s, j).None?
  {
    if i < j {
      WalkEnds(s, i, j - 1);
    }
  }

  /** Waiting for one datagram is a stretch of the whole poll, once the head of its loop is paid for. */
  lemma {:induction false} Nested(s: Start, j: nat, inner: Start, m: nat)
    requires Walk(s, j).Some? && Walk(s, j).value.ok > 0 && Heads(s, j) == 2
    requires inner == Start(s.world, 1, Walk(s, j).value.ok - 1, s.polls + j, Walk(s, j).value.opens)
    requires m > 0 && Quiet(inner, m - 1)
    ensures Walk(s, j + m) == Walk(inner, m)
    decreases m
  {
    hide Walk, Pass, Delivering;
    WalkStart(inner);
    WalkStep(s, j);
    if m == 1 {
      WalkStep(inner, 0);
    } else {
      Nested(s, j, inner, m - 1);
      assert !Delivering(inner.world, inner.polls + m - 2);
      assert Heads(s, j + m - 1) == Heads(inner, m - 1) == 1;
      if Walk(inner, m - 1).Some? {
        WalkStep(s, j + m - 1);
        WalkStep(inner, m - 1);
      } else {
        WalkEnds(s, j + m - 1, j + m);
        WalkEnds(inner, m - 1, m);
      }
    }
  }

  /** A quiet stretch adds nothing to what has been caught. */
  lemma {:induction false} CaughtQuiet(s: Start, j: nat, i: nat)
    requires forall n: nat :: s.polls + j <= n < s.polls + j + i ==> !Delivering(s.world, n)
    ensures Caught(s, j + i) == Caught(s, j)
  {
    if i > 0 {
      CaughtQuiet(s, j, i - 1);
      assert !Delivering(s.world, s.polls + j + i - 1);
    }
  }
}
