/**
 The revolution assembler. `State` and `Add` say what one packet does to the fields;
 the class does it in place, on the arrays, the way the program does.
 */
module FullScanAssembler {
  import opened M360Packet

  /**
   An entry of the range array. Before the first packet the array holds zeros, which is not
   what `begin_rotation` fills it with.
   */
  const ZEROED: Distance := Millimetres(0)

  datatype StateFields = StateFields(
    hasRotation: bool,
    complete: bool,
    rotation: u16,
    frequency: u16,
    seconds: u32,
    fraction: u32,
    count: nat,
    discarded: nat,
    received: seq<bool>,
    ranges: seq<Distance>,
    intensities: seq<u32>)
  {
    predicate Shaped() {
      && |received| == PACKETS_PER_REV
      && |ranges| == POINTS_PER_REV
      && |intensities| == POINTS_PER_REV
    }
  }

  type State = s: StateFields | s.Shaped()
    witness StateFields(false, false, 0, 0, 0, 0, 0, 0,
                        seq(20, _ => false), seq(2300, _ => NoObject), seq(2300, _ => 0))

  function Initial(): State {
    StateFields(false, false, 0, 0, 0, 0, 0, 0,
                seq(PACKETS_PER_REV, _ => false), seq(POINTS_PER_REV, _ => ZEROED), seq(POINTS_PER_REV, _ => 0))
  }

  /** The difference of two counters, cast to a signed 16-bit number. */
  function Delta(a: u16, b: u16): (d: int)
    ensures -0x8000 <= d <= 0x7FFF
    ensures d == 0 <==> a == b
  {
    var wrapped := (a - b) % 0x1_0000;
    if wrapped >= 0x8000 then wrapped - 0x1_0000 else wrapped
  }

  /** `begin_rotation`: everything stored so far is dropped. */
  function Begin(s: State, p: Packet): State {
    StateFields(
      true, false, p.rotation, p.frequency, p.seconds, p.fraction, 0,
      if s.hasRotation && !s.complete && s.count > 0 then s.discarded + 1 else s.discarded,
      seq(PACKETS_PER_REV, _ => false), seq(POINTS_PER_REV, _ => NoObject), seq(POINTS_PER_REV, _ => 0))
  }

  /** `block` written over `all`, starting at `at`. */
  function Splice<T>(all: seq<T>, at: nat, block: seq<T>): (r: seq<T>)
    requires at + |block| <= |all|
    ensures |r| == |all|
    ensures forall i :: 0 <= i < |all| ==> r[i] == if at <= i < at + |block| then block[i - at] else all[i]
  {
    all[..at] + block + all[at + |block|..]
  }

  /** A packet of the active revolution whose position is still empty is stored. */
  function Store(s: State, p: Packet): State {
    var stamped :=
      if p.encoder == 0 then s.(frequency := p.frequency, seconds := p.seconds, fraction := p.fraction) else s;
    stamped.(
      received := s.received[p.Position() := true],
      ranges := Splice(s.ranges, p.encoder, p.ranges),
      intensities := Splice(s.intensities, p.encoder, p.intensities),
      count := s.count + 1,
      complete := s.count + 1 == PACKETS_PER_REV)
  }

  predicate Opens(s: State, p: Packet) {
    !s.hasRotation || Delta(p.rotation, s.rotation) > 0
  }

  predicate Stale(s: State, p: Packet) {
    s.hasRotation && Delta(p.rotation, s.rotation) < 0
  }

  predicate Duplicate(s: State, p: Packet) {
    s.hasRotation && p.rotation == s.rotation && s.received[p.Position()]
  }

  function Add(s: State, p: Packet): State {
    if Opens(s, p) then Store(Begin(s, p), p)
    else if Stale(s, p) || Duplicate(s, p) then s
    else Store(s, p)
  }

  /** The state after a whole history of packets. */
  function Run(h: seq<Packet>): State {
    if h == [] then Initial() else Add(Run(h[..|h| - 1]), h[|h| - 1])
  }

  lemma RunSnoc(h: seq<Packet>, p: Packet)
    ensures Run(h + [p]) == Add(Run(h), p)
  {
    assert (h + [p])[..|h|] == h;
  }

  class FullScanAssembler {
    var hasRotation: bool
    var complete: bool
    var rotation: u16
    var frequency: u16
    var seconds: u32
    var fraction: u32
    var count: nat
    var discarded: nat
    const received: array<bool>
    const ranges: array<Distance>
    const intensities: array<u32>

    /** Every packet ever passed to `AddPacket`, in order. */
    ghost var history: seq<Packet>

    ghost predicate Shaped()
      reads this
    {
      && received.Length == PACKETS_PER_REV
      && ranges.Length == POINTS_PER_REV
      && intensities.Length == POINTS_PER_REV
    }

    /** The fields as a value. */
    ghost function Fields(): State
      requires Shaped()
      reads this, received, ranges, intensities
    {
      StateFields(hasRotation, complete, rotation, frequency, seconds, fraction, count, discarded,
                  received[..], ranges[..], intensities[..])
    }

    ghost predicate Valid()
      reads this, received, ranges, intensities
    {
      Shaped() && Fields() == Run(history)
    }

    lemma ShowsRun()
      requires Valid()
      ensures complete == Run(history).complete && discarded == Run(history).discarded
      ensures ranges[..] == Run(history).ranges && intensities[..] == Run(history).intensities
      ensures frequency == Run(history).frequency
    {
    }

    constructor ()
      ensures Valid() && history == []
      ensures fresh(received) && fresh(ranges) && fresh(intensities)
    {
      hasRotation, complete := false, false;
      rotation, frequency, seconds, fraction := 0, 0, 0, 0;
      count, discarded := 0, 0;
      received := new bool[PACKETS_PER_REV](_ => false);
      ranges := new Distance[POINTS_PER_REV](_ => ZEROED);
      intensities := new u32[POINTS_PER_REV](_ => 0);
      history := [];
      new;
      assert received[..] == Initial().received;
      assert ranges[..] == Initial().ranges;
      assert intensities[..] == Initial().intensities;
    }

    method BeginRotation(p: Packet)
      requires Shaped()
      modifies this, received, ranges, intensities
      ensures Shaped() && Fields() == Begin(old(Fields()), p)
      ensures history == old(history)
    {
      if hasRotation && !complete && count > 0 {
        discarded := discarded + 1;
      }
      hasRotation := true;
      complete := false;
      rotation := p.rotation;
      frequency := p.frequency;
      seconds := p.seconds;
      fraction := p.fraction;
      count := 0;
      FillArrays();
    }

    method FillArrays()
      requires Shaped()
      modifies received, ranges, intensities
      ensures received[..] == seq(PACKETS_PER_REV, _ => false)
      ensures ranges[..] == seq(POINTS_PER_REV, _ => NoObject)
      ensures intensities[..] == seq(POINTS_PER_REV, _ => 0)
    {
      forall i | 0 <= i < received.Length {
        received[i] := false;
      }
      forall i | 0 <= i < ranges.Length {
        ranges[i] := NoObject;
      }
      forall i | 0 <= i < intensities.Length {
        intensities[i] := 0;
      }
    }

    /** The channel loop. The accessor's exception cannot be raised: every channel is in range. */
    method StorePoints(p: Packet)
      requires Shaped()
      modifies ranges, intensities
      ensures ranges[..] == Splice(old(ranges[..]), p.encoder, p.ranges)
      ensures intensities[..] == Splice(old(intensities[..]), p.encoder, p.intensities)
    {
      var channel := 0;
      while channel < CHANNELS
        invariant 0 <= channel <= CHANNELS
        invariant forall i :: 0 <= i < POINTS_PER_REV ==>
                                ranges[i] ==
                                if p.encoder <= i < p.encoder + channel then p.ranges[i - p.encoder]
                                else old(ranges[i])
        invariant forall i :: 0 <= i < POINTS_PER_REV ==>
                                intensities[i] ==
                                if p.encoder <= i < p.encoder + channel then p.intensities[i - p.encoder]
                                else old(intensities[i])
      {
        var index := PointIndex(p, channel);
        if index.Err? {
          assert false;
        } else {
          ranges[index.value] := p.ranges[channel];
          intensities[index.value] := p.intensities[channel];
        }
        channel := channel + 1;
      }
    }

    /** The tail of `add_packet`: header fields from position 0, the points, the flag, the count. */
    method StorePacket(p: Packet)
      requires Shaped()
      modifies this, received, ranges, intensities
      ensures Fields() == Store(old(Fields()), p)
      ensures history == old(history)
    {
      if p.encoder == 0 {
        frequency := p.frequency;
        seconds := p.seconds;
        fraction := p.fraction;
      }
      StorePoints(p);
      received[p.encoder / CHANNELS] := true;
      count := count + 1;
      complete := count == PACKETS_PER_REV;
    }

    method AddPacket(p: Packet) returns (done: bool)
      requires Valid()
      modifies this, received, ranges, intensities
      ensures Valid() && history == old(history) + [p]
      ensures Fields() == Add(old(Fields()), p)
      ensures done == complete
    {
      RunSnoc(history, p);
      if !hasRotation {
        BeginRotation(p);
      } else if p.rotation != rotation {
        var rotationDelta := Delta(p.rotation, rotation);
        if rotationDelta < 0 {
          history := history + [p];
          return complete;
        }
        BeginRotation(p);
      }
      if !received[p.encoder / CHANNELS] {
        StorePacket(p);
      }
      history := history + [p];
      return complete;
    }
  }
}
