/** The receive loop of the driver: recovery of the socket with exponential backoff. */
module UdpReceiver {
  import opened Outcomes
  import opened M360Packet
  import opened ReceiverSocket
  import opened Backoff
  import opened CallBudget

  /**
   Everything the driver asks the outside world. `ros::ok()` answers true `okLeft` more times
   and false ever after: a node that has been shut down stays shut down.
   */
  class Environment {
    var okLeft: nat
    const opens: nat -> OpenReply
    var opensUsed: nat
    const polls: nat -> PollAnswers
    var pollsUsed: nat

    constructor (okLeft: nat, opens: nat -> OpenReply, polls: nat -> PollAnswers)
      ensures this.okLeft == okLeft && this.opens == opens && this.polls == polls
      ensures opensUsed == 0 && pollsUsed == 0
    {
      this.okLeft, this.opens, this.polls := okLeft, opens, polls;
      opensUsed, pollsUsed := 0, 0;
    }

    method RosOk() returns (ok: bool)
      modifies this`okLeft
      ensures ok <==> old(okLeft) > 0
      ensures okLeft == if ok then old(okLeft) - 1 else 0
    {
      ok := okLeft > 0;
      if ok {
        okLeft := okLeft - 1;
      }
    }

    method NextOpen() returns (answers: OpenReply)
      modifies this`opensUsed
      ensures answers == opens(old(opensUsed)) && opensUsed == old(opensUsed) + 1
    {
      answers := opens(opensUsed);
      opensUsed := opensUsed + 1;
    }

    method NextPoll() returns (answers: PollAnswers)
      modifies this`pollsUsed
      ensures answers == polls(old(pollsUsed)) && pollsUsed == old(pollsUsed) + 1
    {
      answers := polls(pollsUsed);
      pollsUsed := pollsUsed + 1;
    }
  }

  // ----- What a recovery did -----

  datatype AttemptOutcome = Reopened | Failed | Interrupted

  /** One pass of the retry loop: the slices slept, in milliseconds, and how it ended. */
  datatype Attempt = Attempt(slices: seq<nat>, outcome: AttemptOutcome)

  type Episode = seq<Attempt>

  function Sum(s: seq<nat>): nat {
    if s == [] then 0 else Sum(s[..|s| - 1]) + s[|s| - 1]
  }

  lemma {:induction false} SumSnoc(s: seq<nat>, x: nat)
    ensures Sum(s + [x]) == Sum(s) + x
  {
    assert (s + [x])[..|s|] == s;
  }

  ghost predicate Sliced(slices: seq<nat>) {
    forall i :: 0 <= i < |slices| ==> 1 <= slices[i] <= 100
  }

  /** The attempt slept its delay in slices of 1..100 ms; only a shutdown may cut it short. */
  ghost predicate Slept(a: Attempt, delay: int) {
    && Sliced(a.slices)
    && Sum(a.slices) <= delay
    && (!a.outcome.Interrupted? ==> Sum(a.slices) == delay)
  }

  /** Attempt `k` slept the delay of the closed form, and only the last attempt did not fail. */
  ghost predicate Proper(e: Episode, initial: int32, longest: int32) {
    forall k: nat :: k < |e| ==>
                       Slept(e[k], Delay(initial, longest, k)) && (k < |e| - 1 ==> e[k].outcome.Failed?)
  }

  ghost predicate AllProper(es: seq<Episode>, initial: int32, longest: int32) {
    es == [] || (Proper(es[|es| - 1], initial, longest) && AllProper(es[..|es| - 1], initial, longest))
  }

  predicate AllFullLength(raws: seq<seq<byte>>) {
    forall i :: 0 <= i < |raws| ==> |raws[i]| == PKT_LEN
  }

  function Failures(e: Episode): (n: nat)
    ensures n <= |e|
  {
    if e == [] then 0
    else Failures(e[..|e| - 1]) + if e[|e| - 1].outcome.Failed? then 1 else 0
  }

  predicate Recovered(e: Episode) {
    |e| > 0 && e[|e| - 1].outcome.Reopened?
  }

  function AllFailures(es: seq<Episode>): nat {
    if es == [] then 0 else AllFailures(es[..|es| - 1]) + Failures(es[|es| - 1])
  }

  function Recoveries(es: seq<Episode>): (n: nat)
    ensures n <= |es|
  {
    if es == [] then 0
    else Recoveries(es[..|es| - 1]) + if Recovered(es[|es| - 1]) then 1 else 0
  }

  lemma {:induction false} EpisodesSnoc(es: seq<Episode>, e: Episode)
    ensures AllFailures(es + [e]) == AllFailures(es) + Failures(e)
    ensures Recoveries(es + [e]) == Recoveries(es) + if Recovered(e) then 1 else 0
  {
    assert (es + [e])[..|es|] == es;
  }

  /** Every error starts a recovery or is a failed reopen, and every reconnect ends a recovery. */
  ghost predicate Accounts(es: seq<Episode>, initial: int32, longest: int32, errors: nat, reconnects: nat) {
    && AllProper(es, initial, longest)
    && errors == |es| + AllFailures(es)
    && reconnects == Recoveries(es)
  }

  lemma {:induction false} AccountsSnoc(
    es: seq<Episode>, e: Episode, initial: int32, longest: int32, errors: nat, reconnects: nat)
    requires Accounts(es, initial, longest, errors, reconnects) && Proper(e, initial, longest)
    ensures Accounts(es + [e], initial, longest, errors + 1 + Failures(e), reconnects + if Recovered(e) then 1 else 0)
    ensures Recoveries(es + [e]) == Recoveries(es) + if Recovered(e) then 1 else 0
  {
    EpisodesSnoc(es, e);
    assert (es + [e])[..|es|] == es;
  }

  /** A recovery that is still going on: every attempt so far has failed. */
  ghost predicate Ongoing(e: Episode, initial: int32, longest: int32) {
    && Proper(e, initial, longest)
    && (forall k: nat :: k < |e| ==> e[k].outcome.Failed?)
    && Failures(e) == |e|
  }

  lemma {:induction false} FailuresSnoc(e: Episode, a: Attempt)
    ensures Failures(e + [a]) == Failures(e) + if a.outcome.Failed? then 1 else 0
  {
    assert (e + [a])[..|e|] == e;
  }

  lemma {:induction false} OngoingSnoc(e: Episode, a: Attempt, initial: int32, longest: int32)
    requires Ongoing(e, initial, longest) && Slept(a, Delay(initial, longest, |e|))
    ensures Proper(e + [a], initial, longest)
    ensures a.outcome.Failed? ==> Ongoing(e + [a], initial, longest)
    ensures Failures(e + [a]) == |e| + if a.outcome.Failed? then 1 else 0
    ensures Recovered(e + [a]) <==> a.outcome.Reopened?
  {
    FailuresSnoc(e, a);
    forall k: nat | k < |e + [a]|
      ensures Slept((e + [a])[k], Delay(initial, longest, k))
      ensures k < |e| ==> (e + [a])[k].outcome.Failed?
    {
      if k < |e| {
        assert (e + [a])[k] == e[k];
      }
    }
  }

  // ----- What the kernel's answers amount to -----

  /** The datagrams among the first `n` answers of `poll` and `recvfrom` that the caller must get. */
  function Deliveries(polls: nat -> PollAnswers, filter: Option<Address>, n: nat): seq<seq<byte>> {
    if n == 0 then []
    else
      var last := polls(n - 1);
      Deliveries(polls, filter, n - 1) + if last.Delivers(PKT_LEN, filter) then [last.received.data] else []
  }

  /** How many of them report a fault of the socket. */
  function Faults(polls: nat -> PollAnswers, n: nat): nat {
    if n == 0 then 0 else Faults(polls, n - 1) + if polls(n - 1).Faulty() then 1 else 0
  }

  /** Attempt `k` reopened the socket exactly if the calls made for it, from `first` on, all succeeded. */
  ghost predicate Answered(e: Episode, opens: nat -> OpenReply, first: nat) {
    forall k: nat :: k < |e| && !e[k].outcome.Interrupted? ==> (e[k].outcome.Reopened? <==> opens(first + k).Succeeds())
  }

  lemma {:induction false} AnsweredSnoc(e: Episode, a: Attempt, opens: nat -> OpenReply, first: nat)
    requires Answered(e, opens, first)
    requires !a.outcome.Interrupted? ==> (a.outcome.Reopened? <==> opens(first + |e|).Succeeds())
    ensures Answered(e + [a], opens, first)
  {
  }

  lemma {:induction false} Beginning(initial: int32, longest: int32, opens: nat -> OpenReply, first: nat)
    ensures Ongoing([], initial, longest) && !Recovered([]) && Answered([], opens, first)
    ensures Max(1, initial) == Delay(initial, longest, 0)
    ensures Max(Max(1, initial), longest) == LongestDelay(initial, longest)
  {
    assert Pow2(0) == 1;
  }

  lemma {:induction false} OngoingProper(e: Episode, initial: int32, longest: int32)
    requires Ongoing(e, initial, longest)
    ensures Proper(e, initial, longest) && Failures(e) == |e|
  {
  }

  class UdpReceiver {
    const env: Environment
    const socket: ReceiverSocket
    const initial: int32
    const longest: int32
    var socketRecovering: bool
    var socketErrors: nat
    var socketReconnects: nat
    var socketRetryDelay: int32
    var lastSocketError: Option<Errno>

    /** Every recovery so far, and every datagram handed to the caller. */
    ghost var episodes: seq<Episode>
    ghost var delivered: seq<seq<byte>>

    function World(): Outside {
      Outside(env.polls, env.opens, socket.filter, initial, longest)
    }

    /** Where a loop stands that asks `heads` times before the next answer of the kernel. */
    function Now(heads: nat): Start
      reads env
    {
      Start(World(), heads, env.okLeft, env.pollsUsed, env.opensUsed)
    }

    /** The books of the recoveries. */
    ghost predicate Accounted()
      reads this
    {
      Accounts(episodes, initial, longest, socketErrors, socketReconnects)
    }

    /** No datagram has been lost, invented or reordered, and every fault has started one recovery. */
    ghost predicate Faithful()
      reads this, env
    {
      && delivered == Deliveries(env.polls, socket.filter, env.pollsUsed)
      && |episodes| == Faults(env.polls, env.pollsUsed)
    }

    /** Between calls, an unrecovered socket means that the node has been shut down. */
    ghost predicate Valid()
      reads this, env, socket
    {
      Sane() && Faithful()
    }

    ghost predicate Sane()
      reads this, env, socket
    {
      && Accounted()
      && socket.Valid()
      && socket.closedCalls == 0
      && (socketRecovering ==> env.okLeft == 0 && |episodes| == Recoveries(episodes) + 1)
      && (!socketRecovering ==> socket.IsOpen() && |episodes| == Recoveries(episodes) && socketRetryDelay == 0)
      && AllFullLength(delivered)
    }

    constructor (env: Environment, socket: ReceiverSocket, initial: int32, longest: int32)
      requires socket.Valid() && socket.IsOpen() && socket.closedCalls == 0 && env.pollsUsed == 0
      ensures Valid() && episodes == [] && delivered == []
      ensures this.env == env && this.socket == socket && this.initial == initial && this.longest == longest
      ensures socketErrors == 0 && socketReconnects == 0 && !socketRecovering
    {
      this.env, this.socket, this.initial, this.longest := env, socket, initial, longest;
      socketRecovering, socketErrors, socketReconnects, socketRetryDelay := false, 0, 0, 0;
      lastSocketError := None;
      episodes, delivered := [], [];
    }

    method RecordSocketError(error: Errno)
      modifies this`socketErrors, this`lastSocketError
      ensures socketErrors == old(socketErrors) + 1 && lastSocketError == Some(error)
    {
      socketErrors := socketErrors + 1;
      lastSocketError := Some(error);
    }

    /** The sleep loop. */
    method SleepInSlices(delay: int32) returns (ghost slices: seq<nat>)
      requires delay >= 1
      modifies env`okLeft
      ensures Sliced(slices) && Sum(slices) <= delay
      ensures Sum(slices) == delay <==> old(env.okLeft) >= Slices(delay)
      ensures env.okLeft == Max(0, old(env.okLeft) - Slices(delay))
    {
      slices := [];
      var remaining := delay;
      while remaining > 0
        invariant 0 <= remaining <= delay
        invariant Sliced(slices) && Sum(slices) == delay - remaining
        invariant |slices| + Slices(remaining) == Slices(delay)
        invariant env.okLeft == old(env.okLeft) - |slices|
      {
        var ok := env.RosOk();
        if !ok {
          break;
        }
        var step := Min(remaining, 100);
        SumSnoc(slices, step);
        slices := slices + [step];
        remaining := remaining - step;
      }
    }

    /** One pass of the retry loop: announce the delay, sleep it, reopen. */
    method TryReopen(retryDelay: int32) returns (outcome: AttemptOutcome, ghost slices: seq<nat>)
      requires socket.Valid() && retryDelay >= 1
      modifies this`socketRecovering, this`socketErrors, this`socketReconnects, this`socketRetryDelay,
               this`lastSocketError, env`okLeft, env`opensUsed, socket`udpSocket, socket`pollFd, socket`log
      ensures socket.Valid()
      ensures Slept(Attempt(slices, outcome), retryDelay)
      ensures outcome.Interrupted? <==> old(env.okLeft) <= Slices(retryDelay)
      ensures env.okLeft == Max(0, old(env.okLeft) - Slices(retryDelay) - 1)
      ensures socketErrors == old(socketErrors) + if outcome.Failed? then 1 else 0
      ensures socketReconnects == old(socketReconnects) + if outcome.Reopened? then 1 else 0
      ensures socketRecovering == (old(socketRecovering) && !outcome.Reopened?)
      ensures outcome.Reopened? ==> socket.IsOpen() && socketRetryDelay == 0
      ensures !outcome.Reopened? ==> socketRetryDelay == retryDelay
      ensures env.opensUsed == old(env.opensUsed) + if outcome.Interrupted? then 0 else 1
      ensures !outcome.Interrupted? ==> (outcome.Reopened? <==> env.opens(old(env.opensUsed)).Succeeds())
      ensures lastSocketError ==
              if outcome.Failed? then Some(env.opens(old(env.opensUsed)).errno) else old(lastSocketError)
    {
      socketRetryDelay := retryDelay;
      slices := SleepInSlices(retryDelay);
      var ok := env.RosOk();
      if !ok {
        return Interrupted, slices;
      }
      var answers := env.NextOpen();
      var reopened := socket.Reopen(answers);
      if reopened.Ok? {
        socketReconnects := socketReconnects + 1;
        socketRecovering := false;
        socketRetryDelay := 0;
        return Reopened, slices;
      }
      RecordSocketError(reopened.error);
      return Failed, slices;
    }

    /** The retry loop: reopen and double the delay until it works or the node is shut down. */
    method RetryUntilOpen() returns (recovered: bool, ghost e: Episode)
      requires socket.Valid() && socketRecovering
      modifies this`socketRecovering, this`socketErrors, this`socketReconnects, this`socketRetryDelay,
               this`lastSocketError, env`okLeft, env`opensUsed, socket`udpSocket, socket`pollFd, socket`log
      ensures socket.Valid() && Proper(e, initial, longest)
      ensures recovered <==> Recovered(e)
      ensures socketErrors == old(socketErrors) + Failures(e)
      ensures socketReconnects == old(socketReconnects) + if recovered then 1 else 0
      ensures socketRecovering == !recovered
      ensures recovered ==> socket.IsOpen() && socketRetryDelay == 0
      ensures !recovered ==> env.okLeft == 0
      ensures env.okLeft <= old(env.okLeft)
      ensures Answered(e, env.opens, old(env.opensUsed))
      ensures Retry(World(), 0, Left(old(env.okLeft), old(env.opensUsed))) ==
              if recovered then Some(Left(env.okLeft, env.opensUsed)) else None
      ensures lastSocketError ==
              if Failures(e) == 0 then old(lastSocketError)
              else Some(env.opens(old(env.opensUsed) + Failures(e) - 1).errno)
    {
      hide Delay, Slept, Proper, Answered, Ongoing, Failures, Recovered, LongestDelay, FirstDelay, Retry, Slices;
      e := [];
      var retryDelay: int32 := Max(1, initial);
      var maxDelay: int32 := Max(retryDelay, longest);
      var ok := env.RosOk();
      Beginning(initial, longest, env.opens, env.opensUsed);
      while ok
        invariant Ongoing(e, initial, longest) && !Recovered(e)
        invariant retryDelay == Delay(initial, longest, |e|)
        invariant maxDelay == LongestDelay(initial, longest)
        invariant socketErrors == old(socketErrors) + |e|
        invariant socketReconnects == old(socketReconnects)
        invariant lastSocketError ==
                  if |e| == 0 then old(lastSocketError) else Some(env.opens(old(env.opensUsed) + |e| - 1).errno)
        invariant socket.Valid() && socketRecovering
        invariant env.okLeft <= old(env.okLeft) && (!ok ==> env.okLeft == 0)
        invariant Answered(e, env.opens, old(env.opensUsed)) && env.opensUsed == old(env.opensUsed) + |e|
        invariant Retry(World(), 0, Left(old(env.okLeft), old(env.opensUsed))) ==
                  Retry(World(), |e|, Left(if ok then env.okLeft + 1 else 0, env.opensUsed))
        decreases env.okLeft, ok
      {
        RetryStep(World(), |e|, Left(env.okLeft + 1, env.opensUsed));
        var outcome, slices := TryReopen(retryDelay);
        AnsweredSnoc(e, Attempt(slices, outcome), env.opens, old(env.opensUsed));
        OngoingSnoc(e, Attempt(slices, outcome), initial, longest);
        DelayStep(initial, longest, |e|);
        e := e + [Attempt(slices, outcome)];
        if !outcome.Failed? {
          return outcome.Reopened?, e;
        }
        retryDelay := retryDelay + Min(retryDelay, maxDelay - retryDelay);
        ok := env.RosOk();
      }
      OngoingProper(e, initial, longest);
      RetryStep(World(), |e|, Left(0, env.opensUsed));
      return false, e;
    }

    /** The handler of a socket failure. Returns whether the socket is usable again. */
    method Recover(error: Errno) returns (recovered: bool, ghost e: Episode)
      requires Sane() && !socketRecovering
      modifies this`socketRecovering, this`socketErrors, this`socketReconnects, this`socketRetryDelay,
               this`lastSocketError, this`episodes, env`okLeft, env`opensUsed,
               socket`udpSocket, socket`pollFd, socket`log
      ensures Sane() && socketRecovering == !recovered
      ensures episodes == old(episodes) + [e]
      ensures recovered <==> Recovered(e)
      ensures Answered(e, env.opens, old(env.opensUsed))
      ensures env.okLeft <= old(env.okLeft)
      ensures Retry(World(), 0, Left(old(env.okLeft), old(env.opensUsed))) ==
              if recovered then Some(Left(env.okLeft, env.opensUsed)) else None
      ensures lastSocketError ==
              Some(if Failures(e) == 0 then error else env.opens(old(env.opensUsed) + Failures(e) - 1).errno)
    {
      hide Proper, AllProper, Answered, AllFullLength, Deliveries, Faults, Failures, Recovered, Retry, AllFailures;
      socketRecovering := true;
      RecordSocketError(error);
      recovered, e := RetryUntilOpen();
      AccountsSnoc(episodes, e, initial, longest, old(socketErrors), old(socketReconnects));
      episodes := episodes + [e];
    }

    /** `get_packet` on the next answer of the kernel; a datagram it delivers is entered into the log. */
    method NextPacket(buffer: array<byte>) returns (r: Result<int, Errno>)
      requires Valid() && !socketRecovering && buffer.Length == PKT_LEN
      modifies this`delivered, env`pollsUsed, socket`closedCalls, buffer
      ensures Sane()
      ensures delivered == Deliveries(env.polls, socket.filter, env.pollsUsed)
      ensures |episodes| + (if r.Err? then 1 else 0) == Faults(env.polls, env.pollsUsed)
      ensures delivered == old(delivered) + if r == Ok(0) then [buffer[..]] else []
      ensures env.pollsUsed == old(env.pollsUsed) + 1
      ensures r.Err? <==> env.polls(old(env.pollsUsed)).Faulty()
      ensures r == Ok(0) <==> Delivering(World(), old(env.pollsUsed))
      ensures r == Ok(0) ==> buffer[..] == env.polls(old(env.pollsUsed)).received.data
    {
      hide Accounts;
      var answers := env.NextPoll();
      r := socket.GetPacket(buffer, answers);
      if r == Ok(0) {
        delivered := delivered + [buffer[..]];
      }
    }

    /** One pass of the receive loop: a datagram, a shutdown during recovery, or neither yet. */
    method TryReceive(buffer: array<byte>) returns (received: Option<bool>)
      requires Valid() && !socketRecovering && buffer.Length == PKT_LEN
      modifies this, env, socket, buffer
      ensures Valid() && (socketRecovering <==> received == Some(false))
      ensures received == Some(true) ==> delivered == old(delivered) + [buffer[..]]
      ensures received != Some(true) ==> delivered == old(delivered)
      ensures env.okLeft <= old(env.okLeft)
      ensures old(episodes) <= episodes
      ensures env.pollsUsed == old(env.pollsUsed) + 1
      ensures received == Some(true) <==> Delivering(World(), old(env.pollsUsed))
      ensures received == Some(true) ==> buffer[..] == env.polls(old(env.pollsUsed)).received.data
      ensures Pass(World(), old(env.pollsUsed), Left(old(env.okLeft), old(env.opensUsed))) ==
              if received == Some(false) then None else Some(Left(env.okLeft, env.opensUsed))
    {
      hide Accounts, Answered, Deliveries, Faults, AllFullLength;
      var r := NextPacket(buffer);
      match r {
        case Ok(value) =>
          return if value == 0 then Some(true) else None;
        case Err(error) =>
          var recovered, _ := Recover(error);
          return if recovered then None else Some(false);
      }
    }

    /**
     Wait for one datagram. True means that the buffer holds a datagram of the wanted length
     and source, the first one among the kernel's answers; false means that the node has been
     shut down before it. The socket is never asked for a packet while it is closed.
     */
    method ReceiveUdpPacket(buffer: array<byte>) returns (received: bool, ghost passes: nat)
      requires Valid() && buffer.Length == PKT_LEN
      modifies this, env, socket, buffer
      ensures Valid()
      ensures received ==> delivered == old(delivered) + [buffer[..]] && !socketRecovering
      ensures !received ==> delivered == old(delivered) && env.okLeft == 0
      ensures old(env.okLeft) == 0 ==> !received
      ensures env.okLeft <= old(env.okLeft)
      ensures old(episodes) <= episodes
      ensures received ==> env.pollsUsed == old(env.pollsUsed) + passes + 1
      ensures received ==> Receives(old(Now(1)), passes, buffer[..], Left(env.okLeft, env.opensUsed))
      ensures !received ==> GivesUp(old(Now(1)), passes)
    {
      hide Pass, Walk, Delivering, Accounts, Deliveries, Faults, AllFullLength;
      ghost var s := Now(1);
      WalkStart(s);
      passes := 0;
      var ok := env.RosOk();
      while ok
        invariant Valid() && delivered == old(delivered)
        invariant ok ==> !socketRecovering && old(env.okLeft) > 0
        invariant env.okLeft <= old(env.okLeft) && (!ok ==> env.okLeft == 0)
        invariant old(episodes) <= episodes
        invariant Quiet(s, passes) && env.pollsUsed == s.polls + passes
        invariant Walk(s, passes) == Some(Left(env.okLeft + if ok then 1 else 0, env.opensUsed))
        decreases env.okLeft, ok
      {
        assert Heads(s, passes) == 1;
        WalkStep(s, passes);
        var outcome := TryReceive(buffer);
        if outcome.Some? {
          return outcome.value, passes;
        }
        QuietMore(s, passes);
        passes := passes + 1;
        ok := env.RosOk();
      }
      WalkStep(s, passes);
      return false, passes;
    }
  }

  /**
   Every error counted is a fault the kernel reported or a failed reopen, and whenever no
   recovery is pending, every one is a successful recovery or a failed reopen.
   */
  lemma {:induction false} ErrorsBalanced(r: UdpReceiver)
    requires r.Valid()
    ensures r.socketErrors == Faults(r.env.polls, r.env.pollsUsed) + AllFailures(r.episodes)
    ensures r.socketReconnects <= r.socketErrors
    ensures !r.socketRecovering ==> r.socketErrors == r.socketReconnects + AllFailures(r.episodes)
    ensures r.socketRecovering ==> r.socketErrors == r.socketReconnects + 1 + AllFailures(r.episodes)
  {
  }

  // ----- The datagrams delivered, told from the fields of the kernel's answers -----

  lemma {:induction false} DeliveriesGrow(polls: nat -> PollAnswers, filter: Option<Address>, m: nat, n: nat)
    requires m <= n
    ensures Deliveries(polls, filter, m) <= Deliveries(polls, filter, n)
  {
    if m < n {
      DeliveriesGrow(polls, filter, m, n - 1);
    }
  }

  lemma {:induction false} DeliveryAt(polls: nat -> PollAnswers, filter: Option<Address>, n: nat, k: nat)
    returns (i: nat)
    requires k < |Deliveries(polls, filter, n)|
    ensures i < n && polls(i).Delivers(PKT_LEN, filter) && |Deliveries(polls, filter, i)| == k
    ensures polls(i).received.data == Deliveries(polls, filter, n)[k]
  {
    if k < |Deliveries(polls, filter, n - 1)| {
      i := DeliveryAt(polls, filter, n - 1, k);
    } else {
      i := n - 1;
    }
  }

  /** Every datagram handed over is a readable one of 936 bytes, from the wanted source if one is wanted. */
  lemma {:induction false} DeliveredFromSource(r: UdpReceiver, k: nat) returns (n: nat)
    requires r.Valid() && k < |r.delivered|
    ensures n < r.env.pollsUsed
    ensures var a := r.env.polls(n);
            && a.poll > 0 && !a.pollErr && !a.pollHup && !a.pollNval && a.pollIn && a.received.Datagram?
            && |a.received.data| == 936
            && (r.socket.filter == None || r.socket.filter == Some(a.received.from))
            && r.delivered[k] == a.received.data
    ensures |Deliveries(r.env.polls, r.socket.filter, n)| == k
  {
    n := DeliveryAt(r.env.polls, r.socket.filter, r.env.pollsUsed, k);
    AnswerMeans(r.env.polls(n), PKT_LEN, r.socket.filter);
  }

  /** And every such datagram has been handed over, in its turn. */
  lemma {:induction false} SourceIsDelivered(r: UdpReceiver, n: nat)
    requires r.Valid() && n < r.env.pollsUsed
    requires var a := r.env.polls(n);
             && a.poll > 0 && !a.pollErr && !a.pollHup && !a.pollNval && a.pollIn && a.received.Datagram?
             && |a.received.data| == 936
             && (r.socket.filter == None || r.socket.filter == Some(a.received.from))
    ensures var k := |Deliveries(r.env.polls, r.socket.filter, n)|;
            k < |r.delivered| && r.delivered[k] == r.env.polls(n).received.data
  {
    AnswerMeans(r.env.polls(n), PKT_LEN, r.socket.filter);
    DeliveriesGrow(r.env.polls, r.socket.filter, n + 1, r.env.pollsUsed);
  }
}
