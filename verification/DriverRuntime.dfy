/** From the configuration and the ROS parameters to the end of the run. */
module DriverRuntime {
  import opened Outcomes
  import opened M360Packet
  import opened ReceiverSocket
  import opened ScanDelivery
  import opened UdpReceiver
  import opened RosDriver
  import opened PcapDriver
  import opened DriverConfig
  import opened ParameterOverlay

  /**
   How the program ends: with an exception from the configuration or the socket, or with a run
   that the shutdown has ended. Single packets of a capture are not part of this model.
   */
  datatype Ending =
    | Rejected(error: ConfigError)
    | SocketFailed(errno: Errno)
    | RanUdpDriver(udp: Driver)
    | RanCapture(capture: PcapDriver)
    | SinglePacketsOfCapture

  /** Everything the outside world contributes to one run. */
  datatype World = World(
    okLeft: nat,
    parsedAddress: Option<Address>,
    uninitialized: int,
    firstOpen: OpenReply,
    opens: nat -> OpenReply,
    polls: nat -> PollAnswers,
    capture: seq<seq<byte>>)

  /** The configuration a run is made with: the valid result of the overlay, of which there is at most one. */
  ghost predicate Effective(d: DriverConfig, base: DriverConfig, g: Parameters, p: Parameters) {
    WellFormed(d) && Applied(Printed(base), g, p, d)
  }

  /**
   `run_driver_runtime`: the parameters are laid over the configuration, the driver of the
   resulting mode is built, and it polls until the node is shut down. The ending is decided by
   the effective configuration: without one it is a rejection.
   */
  method RunDriverRuntime(base: DriverConfig, g: Parameters, p: Parameters, world: World) returns (r: Ending)
    ensures r.Rejected? <==> forall d: DriverConfig :: !Effective(d, base, g, p)
    ensures forall d: DriverConfig :: Effective(d, base, g, p) ==>
              && (r.SocketFailed? <==> d.mode == UDP
                                       && !(SourceFilter(d.ip, world.parsedAddress).Ok? && world.firstOpen.Succeeds()))
              && (r.RanUdpDriver? <==> d.mode == UDP
                                       && SourceFilter(d.ip, world.parsedAddress).Ok? && world.firstOpen.Succeeds())
              && (r.RanCapture? <==> d.mode == PCAP && d.capture == FULL)
              && (r.SinglePacketsOfCapture? <==> d.mode == PCAP && d.capture == SINGLE)
    ensures forall d: DriverConfig :: Effective(d, base, g, p) && r.RanUdpDriver? ==>
              && RanUdp(r.udp, d, SourceFilter(d.ip, world.parsedAddress).value, world.opens, world.polls)
    ensures r.RanCapture? ==>
              && r.capture.Valid() && r.capture.file == world.capture && r.capture.env.okLeft == 0
              && AllOfType(r.capture.published, FULL)
              && Ended(r.capture.published, r.capture.payloads)
              && AllPackets(r.capture.published) == Survivors(r.capture.payloads)
  {
    hide Applied, WellFormed, Printed, RanUdp, Ended, AllPackets, Survivors;
    var overlaid := ApplyParameterOverrides(base, g, p);
    if overlaid.Err? {
      assert forall d: DriverConfig :: Effective(d, base, g, p) ==> overlaid == Ok(d);
      return Rejected(overlaid.error);
    }
    var configuration := overlaid.value;
    assert overlaid == Ok(configuration);
    assert Effective(configuration, base, g, p);
    assert forall d: DriverConfig :: Effective(d, base, g, p) ==> overlaid == Ok(d);
    if configuration.mode == PCAP {
      if configuration.capture == SINGLE {
        return SinglePacketsOfCapture;
      }
      var env := new Environment(world.okLeft, world.opens, world.polls);
      var driver := new PcapDriver(env, world.capture);
      driver.RunFull();
      return RanCapture(driver);
    }
    var ran := StartUdp(configuration, world.parsedAddress, world.uninitialized, world.firstOpen,
                        world.okLeft, world.opens, world.polls);
    if ran.Err? {
      return SocketFailed(ran.error);
    }
    return RanUdpDriver(ran.value);
  }
}
