/**
 The UDP socket object: descriptor life cycle under failure of any system call, and the
 classification of what `poll` and `recvfrom` report. The kernel's answers are parameters.
 */
module ReceiverSocket {
  import opened Outcomes
  import opened M360Packet

  type Address = u32

  datatype Errno = EINTR | EAGAIN | EWOULDBLOCK | EBADF | EIO | EINVAL | OtherError(code: int)

  /** Answers of the system calls of one `open_socket`, in the order in which they are made. */
  datatype OpenAnswers = OpenAnswers(
    socket: int,
    reuseAddr: bool,
    reusePort: bool,
    bind: bool,
    nonBlocking: bool,
    errno: Errno)
  {
    /** `socket` returns a descriptor or -1. */
    predicate Plausible() {
      socket >= -1
    }

    predicate Succeeds() {
      socket >= 0 && reuseAddr && reusePort && bind && nonBlocking
    }
  }

  type OpenReply = a: OpenAnswers | a.Plausible() witness OpenAnswers(-1, false, false, false, false, EIO)

  datatype Received = RecvFailed(errno: Errno) | Datagram(data: seq<byte>, from: Address)

  /** Answers of `poll`, with its revents, and of the `recvfrom` after it. */
  datatype PollAnswers = PollAnswers(
    poll: int,
    errno: Errno,
    pollErr: bool,
    pollHup: bool,
    pollNval: bool,
    pollIn: bool,
    received: Received)
  {
    predicate Readable() {
      poll > 0 && !pollErr && !pollHup && !pollNval && pollIn
    }

    /** The kernel reports an error that `get_packet` turns into an exception. */
    predicate Faulty() {
      || (poll < 0 && errno != EINTR)
      || (poll > 0 && (pollErr || pollHup || pollNval))
      || (Readable() && received.RecvFailed? && received.errno != EWOULDBLOCK && received.errno != EAGAIN)
    }

    /** A datagram of the wanted length from the wanted source has been read. */
    predicate Delivers(length: nat, filter: Option<Address>) {
      && Readable() && received.Datagram?
      && (filter.Some? ==> received.from == filter.value)
      && |received.data| == length
    }

    /** Nothing to read yet: try again. */
    predicate Idle() {
      || poll == 0
      || (poll < 0 && errno == EINTR)
      || (Readable() && received.RecvFailed? && (received.errno == EWOULDBLOCK || received.errno == EAGAIN))
    }
  }

  /** What makes an answer deliver a datagram, or count as a fault, field by field. */
  lemma AnswerMeans(a: PollAnswers, length: nat, filter: Option<Address>)
    ensures a.Delivers(length, filter) <==>
            && a.poll > 0 && !a.pollErr && !a.pollHup && !a.pollNval && a.pollIn
            && a.received.Datagram? && |a.received.data| == length
            && (filter == None || filter == Some(a.received.from))
    ensures a.Faulty() <==>
            || (a.poll < 0 && a.errno != EINTR)
            || (a.poll > 0 && (a.pollErr || a.pollHup || a.pollNval))
            || (a.poll > 0 && a.pollIn && a.received.RecvFailed? && a.received.errno !in {EWOULDBLOCK, EAGAIN})
  {
  }

  datatype DescriptorEvent = Acquired(fd: int) | Closed(fd: int)

  /**
   The descriptors of a log come and go one at a time: each is acquired when none is held,
   closed once before the next is acquired, and `held` is the one still open (-1 if none).
   */
  ghost predicate OneAtATime(log: seq<DescriptorEvent>, held: int) {
    if log == [] then held == -1
    else
      match log[|log| - 1]
      case Acquired(fd) => fd >= 0 && held == fd && OneAtATime(log[..|log| - 1], -1)
      case Closed(fd) => fd >= 0 && held == -1 && OneAtATime(log[..|log| - 1], fd)
  }

  ghost function CountAcquired(log: seq<DescriptorEvent>, fd: int): nat {
    if log == [] then 0
    else CountAcquired(log[..|log| - 1], fd) + if log[|log| - 1] == Acquired(fd) then 1 else 0
  }

  ghost function CountClosed(log: seq<DescriptorEvent>, fd: int): nat {
    if log == [] then 0
    else CountClosed(log[..|log| - 1], fd) + if log[|log| - 1] == Closed(fd) then 1 else 0
  }

  /** No leak and no double close: every acquisition is matched by a close, except the held one. */
  lemma {:induction false} EveryDescriptorClosedOnce(log: seq<DescriptorEvent>, held: int, fd: int)
    requires OneAtATime(log, held)
    ensures CountAcquired(log, fd) == CountClosed(log, fd) + if held == fd && fd >= 0 then 1 else 0
  {
    if log != [] {
      var before := log[..|log| - 1];
      match log[|log| - 1]
      case Acquired(_) => EveryDescriptorClosedOnce(before, -1, fd);
      case Closed(f) => EveryDescriptorClosedOnce(before, f, fd);
    }
  }

  class ReceiverSocket {
    const filter: Option<Address>
    var udpSocket: int
    var pollFd: int

    /** Every descriptor the kernel handed out to this object, and every close. */
    ghost var log: seq<DescriptorEvent>

    /** How often `GetPacket` found the socket closed. */
    ghost var closedCalls: nat

    ghost predicate Valid()
      reads this
    {
      OneAtATime(log, udpSocket) && pollFd == udpSocket
    }

    predicate IsOpen()
      reads this
    {
      udpSocket >= 0
    }

    /**
     The members before the constructor opens the socket; the poll descriptor has no
     initializer, so it may hold any value.
     */
    constructor Unopened(filter: Option<Address>, uninitialized: int)
      ensures this.filter == filter && udpSocket == -1 && pollFd == uninitialized
      ensures log == [] && closedCalls == 0
    {
      this.filter := filter;
      udpSocket := -1;
      pollFd := uninitialized;
      log := [];
      closedCalls := 0;
    }

    method CloseSocket()
      requires OneAtATime(log, udpSocket)
      modifies this`udpSocket, this`pollFd, this`log
      ensures Valid() && !IsOpen()
      ensures log == old(log) + if old(udpSocket) >= 0 then [Closed(old(udpSocket))] else []
    {
      if udpSocket >= 0 {
        assert (log + [Closed(udpSocket)])[..|log|] == log;
        log := log + [Closed(udpSocket)];
        udpSocket := -1;
      }
      pollFd := -1;
    }

    /** The four calls after `socket`; any failure closes the descriptor again. */
    method OpenSocket(answers: OpenReply) returns (r: Result<(), Errno>)
      requires OneAtATime(log, udpSocket) && udpSocket == -1
      modifies this`udpSocket, this`pollFd, this`log
      ensures r.Ok? <==> answers.Succeeds()
      ensures r.Ok? <==> answers.socket >= 0 && answers.reuseAddr && answers.reusePort && answers.bind
                         && answers.nonBlocking
      ensures r.Ok? ==> Valid() && udpSocket == answers.socket && log == old(log) + [Acquired(answers.socket)]
      ensures r.Err? ==> OneAtATime(log, udpSocket) && !IsOpen() && r.error == answers.errno
      ensures r.Err? && answers.socket == -1 ==> pollFd == old(pollFd) && log == old(log)
      ensures r.Err? && answers.socket >= 0 ==>
                Valid() && log == old(log) + [Acquired(answers.socket), Closed(answers.socket)]
    {
      udpSocket := answers.socket;
      if udpSocket == -1 {
        return Err(answers.errno);
      }
      assert (log + [Acquired(udpSocket)])[..|log|] == log;
      log := log + [Acquired(udpSocket)];
      if !answers.reuseAddr {
        CloseSocket();
        return Err(answers.errno);
      }
      if !answers.reusePort {
        CloseSocket();
        return Err(answers.errno);
      }
      if !answers.bind {
        CloseSocket();
        return Err(answers.errno);
      }
      if !answers.nonBlocking {
        CloseSocket();
        return Err(answers.errno);
      }
      pollFd := udpSocket;
      return Ok(());
    }

    method Reopen(answers: OpenReply) returns (r: Result<(), Errno>)
      requires Valid()
      modifies this`udpSocket, this`pollFd, this`log
      ensures Valid()
      ensures r.Ok? <==> answers.Succeeds()
      ensures IsOpen() <==> r.Ok?
      ensures r.Err? ==> r.error == answers.errno
      ensures r.Ok? ==> udpSocket == answers.socket
      ensures log == old(log)
                     + (if old(udpSocket) >= 0 then [Closed(old(udpSocket))] else [])
                     + (if answers.socket >= 0 then [Acquired(answers.socket)] else [])
                     + (if r.Err? && answers.socket >= 0 then [Closed(answers.socket)] else [])
    {
      CloseSocket();
      r := OpenSocket(answers);
    }

    /**
     0 for a datagram, 1 for nothing yet, -1 for a datagram (or event) to skip; or an exception.
     The last clauses go through the kernel's answers one by one.
     */
    method GetPacket(buffer: array<byte>, answers: PollAnswers) returns (r: Result<int, Errno>)
      requires Valid()
      modifies this`closedCalls, buffer
      ensures closedCalls == old(closedCalls) + if IsOpen() then 0 else 1
      ensures !IsOpen() ==> r == Err(EBADF)
      ensures IsOpen() ==> (r.Err? <==> answers.Faulty())
      ensures IsOpen() ==> (r == Ok(0) <==> answers.Delivers(buffer.Length, filter))
      ensures IsOpen() ==> (r == Ok(1) <==> answers.Idle())
      ensures r.Ok? ==> r.value == 0 || r.value == 1 || r.value == -1
      ensures r == Ok(0) ==> buffer[..] == answers.received.data
      ensures IsOpen() && answers.poll == 0 ==> r == Ok(1)
      ensures IsOpen() && answers.poll < 0 ==> r == if answers.errno == EINTR then Ok(1) else Err(answers.errno)
      ensures IsOpen() && answers.poll > 0 && (answers.pollErr || answers.pollHup || answers.pollNval) ==> r == Err(EIO)
      ensures IsOpen() && answers.poll > 0 && !answers.pollErr && !answers.pollHup && !answers.pollNval ==>
                if !answers.pollIn then r == Ok(-1)
                else
                  match answers.received {
                    case RecvFailed(errno) => r == if errno == EWOULDBLOCK || errno == EAGAIN then Ok(1) else Err(errno)
                    case Datagram(data, from) =>
                      r == if |data| == buffer.Length && (filter.None? || from == filter.value) then Ok(0) else Ok(-1)
                  }
    {
      if udpSocket < 0 {
        closedCalls := closedCalls + 1;
        return Err(EBADF);
      }
      if answers.poll == 0 {
        return Ok(1);
      }
      if answers.poll < 0 {
        if answers.errno == EINTR {
          return Ok(1);
        }
        return Err(answers.errno);
      }
      if answers.pollErr || answers.pollHup || answers.pollNval {
        return Err(EIO);
      }
      if !answers.pollIn {
        return Ok(-1);
      }
      match answers.received {
        case RecvFailed(errno) =>
          if errno != EWOULDBLOCK && errno != EAGAIN {
            return Err(errno);
          }
          return Ok(1);
        case Datagram(data, from) =>
          forall i | 0 <= i < buffer.Length && i < |data| {
            buffer[i] := data[i];
          }
          if filter.Some? && from != filter.value {
            return Ok(-1);
          }
          if |data| != buffer.Length {
            return Ok(-1);
          }
          assert buffer[..] == data;
          return Ok(0);
      }
    }
  }

  const ANY_SOURCE := "0.0.0.0"

  /** Both spellings of "accept packets from any source". */
  predicate AcceptsAnySource(ip: string) {
    ip == "" || ip == ANY_SOURCE
  }

  /** How the constructor reads its address argument; `parsed` is the answer of `inet_pton`. */
  function SourceFilter(ip: string, parsed: Option<Address>): (r: Result<Option<Address>, Errno>)
    ensures r.Err? <==> !AcceptsAnySource(ip) && parsed.None?
    ensures r == Ok(None) <==> AcceptsAnySource(ip)
    ensures r == Ok(None) <==> ip == "" || ip == ['0', '.', '0', '.', '0', '.', '0']
    ensures r.Ok? && !AcceptsAnySource(ip) ==> r == Ok(parsed)
  {
    if AcceptsAnySource(ip) then Ok(None)
    else if parsed.None? then Err(EINVAL)
    else Ok(parsed)
  }

  /**
   The constructor. When it throws, there is no object, and nothing is left open: any
   descriptor acquired on the way has been closed.
   */
  method Connect(ip: string, parsed: Option<Address>, uninitialized: int, answers: OpenReply)
    returns (r: Result<ReceiverSocket, Errno>, ghost log: seq<DescriptorEvent>)
    ensures r.Ok? <==> SourceFilter(ip, parsed).Ok? && answers.Succeeds()
    ensures r.Ok? ==>
              && fresh(r.value) && r.value.Valid() && r.value.IsOpen()
              && Ok(r.value.filter) == SourceFilter(ip, parsed)
              && r.value.closedCalls == 0 && log == r.value.log
    ensures r.Err? ==> OneAtATime(log, -1)
  {
    log := [];
    var filter := SourceFilter(ip, parsed);
    if filter.Err? {
      return Err(filter.error), [];
    }
    var s := new ReceiverSocket.Unopened(filter.value, uninitialized);
    var outcome := s.OpenSocket(answers);
    log := s.log;
    if outcome.Err? {
      return Err(outcome.error), log;
    }
    return Ok(s), log;
  }
}
