/** ROS parameters laid over a configuration: written key by key into its JSON form, then parsed. */
module ParameterOverlay {
  import opened Outcomes
  import opened Json
  import opened Backoff
  import opened DriverConfig

  /**
   The parameters of one node handle as the library delivers them, by the configuration key they
   override (the program reads `source_ip` for ip, `udp_port` for port and `scan_topic` for
   topic). The library converts between integers and doubles itself; what it cannot deliver in
   the type asked for is absent.
   */
  datatype Parameters = Parameters(
    strings: map<Key, string>,
    bools: map<Key, bool>,
    ints: map<Key, int32>,
    doubles: map<Key, Double>)

  const NO_PARAMETERS := Parameters(map[], map[], map[], map[])

  /** `param(name, value, default)`. */
  function Pick<T>(m: map<Key, T>, key: Key, default: T): T {
    if key in m then m[key] else default
  }

  /** `values.value(key, default)`, for a key of the right type. */
  function StringOr(values: Fields, key: Key, default: string): string {
    if key in values && values[key].String? then values[key].s else default
  }

  function IntOr(values: Fields, key: Key, default: int32): int32 {
    if key in values && values[key].Integer? && -0x8000_0000 <= values[key].n < 0x8000_0000 then values[key].n
    else default
  }

  function BoolOr(values: Fields, key: Key, default: bool): bool {
    if key in values && values[key].Boolean? then values[key].b else default
  }

  function DoubleOr(values: Fields, key: Key, default: Double): Double {
    if key in values && values[key].Number? then values[key].d else default
  }

  // ----- What the overlay means -----

  /** Private parameters beat global ones, and those beat the configuration, for two keys only. */
  function FrameIdFrom(g: Parameters, p: Parameters, c: DriverConfig): string {
    Pick(p.strings, FrameId, Pick(g.strings, FrameId, c.frameId))
  }

  function AngleFrom(g: Parameters, p: Parameters, c: DriverConfig): Double {
    Pick(p.doubles, AngleOffsetDeg, Pick(g.doubles, AngleOffsetDeg, c.angleOffsetDeg))
  }

  predicate AppliedOutput(c: DriverConfig, g: Parameters, p: Parameters, r: DriverConfig) {
    && ModeText(r.mode) == Pick(p.strings, Mode, ModeText(c.mode))
    && CaptureText(r.capture) == Pick(p.strings, Capture, CaptureText(c.capture))
    && r.name == c.name
    && r.topic == Pick(p.strings, Topic, c.topic)
    && r.pointcloudTopic == Pick(p.strings, PointcloudTopic, c.pointcloudTopic)
    && r.frameId == FrameIdFrom(g, p, c)
    && r.angleOffsetDeg == AngleFrom(g, p, c)
  }

  predicate AppliedSafety(c: DriverConfig, p: Parameters, r: DriverConfig) {
    && r.safetyDebug == Pick(p.bools, SafetyDebug, c.safetyDebug)
    && r.safetyZonesTopic == Pick(p.strings, SafetyZonesTopic, c.safetyZonesTopic)
    && r.safetyZonesStatusTopic == Pick(p.strings, SafetyZonesStatusTopic, c.safetyZonesStatusTopic)
    && r.safetyDebugPeriodS == Pick(p.doubles, SafetyDebugPeriodS, c.safetyDebugPeriodS)
  }

  predicate AppliedHttp(c: DriverConfig, p: Parameters, r: DriverConfig) {
    && r.httpHost == Pick(p.strings, HttpHost, c.httpHost)
    && r.httpPort == Pick(p.ints, HttpPort, c.httpPort)
    && r.httpTimeoutMs == Pick(p.ints, HttpTimeoutMs, c.httpTimeoutMs)
  }

  predicate AppliedDiagnostics(c: DriverConfig, p: Parameters, r: DriverConfig) {
    && r.diagnosticsEnabled == Pick(p.bools, DiagnosticsEnabled, c.diagnosticsEnabled)
    && r.diagnosticsTopic == Pick(p.strings, DiagnosticsTopic, c.diagnosticsTopic)
    && r.diagnosticsPeriodS == Pick(p.doubles, DiagnosticsPeriodS, c.diagnosticsPeriodS)
    && r.noDataTimeoutS == Pick(p.doubles, NoDataTimeoutS, c.noDataTimeoutS)
  }

  predicate AppliedReconnect(c: DriverConfig, p: Parameters, r: DriverConfig) {
    && r.udpReconnectInitialMs == Pick(p.ints, UdpReconnectInitialMs, c.udpReconnectInitialMs)
    && r.udpReconnectMaxMs == Pick(p.ints, UdpReconnectMaxMs, c.udpReconnectMaxMs)
  }

  /** Only the fields of the resulting mode are taken over. */
  predicate AppliedTransport(c: DriverConfig, p: Parameters, r: DriverConfig) {
    && (r.mode == UDP ==> r.ip == Pick(p.strings, Ip, c.ip) && r.port == Pick(p.ints, Port, c.port))
    && (r.mode == PCAP ==> r.pcapPath == Pick(p.strings, PcapPath, c.pcapPath))
  }

  /** Field by field, `r` is `c` with the parameters applied. */
  predicate Applied(c: DriverConfig, g: Parameters, p: Parameters, r: DriverConfig) {
    && AppliedOutput(c, g, p, r) && AppliedSafety(c, p, r) && AppliedHttp(c, p, r)
    && AppliedDiagnostics(c, p, r) && AppliedReconnect(c, p, r) && AppliedTransport(c, p, r)
  }

  /** The value under each key after the overlay. */
  function OverlaidField(c: DriverConfig, g: Parameters, p: Parameters, key: Key): Json {
    match key
    case Mode => String(Pick(p.strings, Mode, ModeText(c.mode)))
    case Capture => String(Pick(p.strings, Capture, CaptureText(c.capture)))
    case Name => String(c.name)
    case Ip => String(Pick(p.strings, Ip, c.ip))
    case Port => Integer(Pick(p.ints, Port, c.port))
    case PcapPath => String(Pick(p.strings, PcapPath, c.pcapPath))
    case Topic => String(Pick(p.strings, Topic, c.topic))
    case PointcloudTopic => String(Pick(p.strings, PointcloudTopic, c.pointcloudTopic))
    case FrameId => String(FrameIdFrom(g, p, c))
    case AngleOffsetDeg => Number(AngleFrom(g, p, c))
    case SafetyDebug => Boolean(Pick(p.bools, SafetyDebug, c.safetyDebug))
    case SafetyZonesTopic => String(Pick(p.strings, SafetyZonesTopic, c.safetyZonesTopic))
    case SafetyZonesStatusTopic => String(Pick(p.strings, SafetyZonesStatusTopic, c.safetyZonesStatusTopic))
    case SafetyDebugPeriodS => Number(Pick(p.doubles, SafetyDebugPeriodS, c.safetyDebugPeriodS))
    case DiagnosticsEnabled => Boolean(Pick(p.bools, DiagnosticsEnabled, c.diagnosticsEnabled))
    case DiagnosticsTopic => String(Pick(p.strings, DiagnosticsTopic, c.diagnosticsTopic))
    case DiagnosticsPeriodS => Number(Pick(p.doubles, DiagnosticsPeriodS, c.diagnosticsPeriodS))
    case NoDataTimeoutS => Number(Pick(p.doubles, NoDataTimeoutS, c.noDataTimeoutS))
    case HttpHost => String(Pick(p.strings, HttpHost, c.httpHost))
    case HttpPort => Integer(Pick(p.ints, HttpPort, c.httpPort))
    case HttpTimeoutMs => Integer(Pick(p.ints, HttpTimeoutMs, c.httpTimeoutMs))
    case UdpReconnectInitialMs => Integer(Pick(p.ints, UdpReconnectInitialMs, c.udpReconnectInitialMs))
    case UdpReconnectMaxMs => Integer(Pick(p.ints, UdpReconnectMaxMs, c.udpReconnectMaxMs))
    case Unknown(_) => Null
  }

  predicate StringKey(key: Key) {
    || key.Mode? || key.Capture? || key.Ip? || key.PcapPath? || key.Topic? || key.PointcloudTopic?
    || key.SafetyZonesTopic? || key.SafetyZonesStatusTopic? || key.HttpHost? || key.DiagnosticsTopic?
  }

  predicate BoolKey(key: Key) {
    key.SafetyDebug? || key.DiagnosticsEnabled?
  }

  predicate IntKey(key: Key) {
    key.Port? || key.HttpPort? || key.HttpTimeoutMs? || key.UdpReconnectInitialMs? || key.UdpReconnectMaxMs?
  }

  predicate DoubleKey(key: Key) {
    key.SafetyDebugPeriodS? || key.DiagnosticsPeriodS? || key.NoDataTimeoutS?
  }

  /** The fields of the other transport are blank, as the printer leaves them out. */
  predicate PrintedOnly(c: DriverConfig) {
    (c.mode == UDP ==> c.pcapPath == "") && (c.mode == PCAP ==> c.ip == "" && c.port == 0)
  }

  /** What of a configuration the printer shows. */
  function Printed(c: DriverConfig): (r: DriverConfig)
    ensures PrintedOnly(r)
    ensures PrintedOnly(c) ==> r == c
  {
    if c.mode == UDP then c.(pcapPath := "") else c.(ip := "", port := 0)
  }

  lemma {:induction false} PrintedField(c: DriverConfig, key: Key)
    requires key in PrintedKeys(c.mode)
    ensures Field(Printed(c), key) == Field(c, key)
  {
  }

  lemma {:induction false} PrintedAlike(c: DriverConfig)
    ensures ToJson(Printed(c)) == ToJson(c)
  {
    hide Field, PrintedKeys;
    forall key | key in PrintedKeys(c.mode)
      ensures Field(Printed(c), key) == Field(c, key)
    {
      PrintedField(c, key);
    }
  }

  /** Keys that were printed are as printed, and keys of the other transport are missing. */
  predicate Untouched(values: Fields, c: DriverConfig, key: Key) {
    if key in PrintedKeys(c.mode) then HoldsAt(values, c, key) else key !in values
  }

  predicate Written(values: Fields, c: DriverConfig, g: Parameters, p: Parameters, key: Key) {
    key in values && values[key] == OverlaidField(c, g, p, key)
  }

  /** What a lambda computes for a key it has not reached yet is the overlaid value. */
  lemma {:induction false} StringOverlaid(values: Fields, c: DriverConfig, g: Parameters, p: Parameters, key: Key)
    requires PrintedOnly(c) && StringKey(key) && Untouched(values, c, key)
    ensures String(Pick(p.strings, key, StringOr(values, key, ""))) == OverlaidField(c, g, p, key)
  {
    assert key !in PrintedKeys(c.mode) ==> (key.Ip? && c.mode == PCAP) || (key.PcapPath? && c.mode == UDP);
  }

  lemma {:induction false} IntOverlaid(values: Fields, c: DriverConfig, g: Parameters, p: Parameters, key: Key)
    requires PrintedOnly(c) && IntKey(key) && Untouched(values, c, key)
    ensures Integer(Pick(p.ints, key, IntOr(values, key, 0))) == OverlaidField(c, g, p, key)
  {
    assert key !in PrintedKeys(c.mode) ==> key.Port? && c.mode == PCAP;
  }

  lemma {:induction false} BoolOverlaid(values: Fields, c: DriverConfig, g: Parameters, p: Parameters, key: Key)
    requires BoolKey(key) && Untouched(values, c, key)
    ensures Boolean(Pick(p.bools, key, BoolOr(values, key, false))) == OverlaidField(c, g, p, key)
  {
    assert key in PrintedKeys(c.mode);
  }

  lemma {:induction false} DoubleOverlaid(values: Fields, c: DriverConfig, g: Parameters, p: Parameters, key: Key)
    requires DoubleKey(key) && Untouched(values, c, key)
    ensures Number(Pick(p.doubles, key, DoubleOr(values, key, Finite(0.0)))) == OverlaidField(c, g, p, key)
  {
    assert key in PrintedKeys(c.mode);
  }

  /** The order in which the overlay deals with the keys; `name` is never overridden. */
  function Order(key: Key): nat {
    match key
    case Name => 0
    case Mode => 1
    case Capture => 2
    case Ip => 3
    case Port => 4
    case PcapPath => 5
    case Topic => 6
    case PointcloudTopic => 7
    case FrameId => 8
    case AngleOffsetDeg => 9
    case SafetyDebug => 10
    case SafetyZonesTopic => 11
    case SafetyZonesStatusTopic => 12
    case SafetyDebugPeriodS => 13
    case HttpHost => 14
    case HttpPort => 15
    case HttpTimeoutMs => 16
    case DiagnosticsEnabled => 17
    case DiagnosticsTopic => 18
    case DiagnosticsPeriodS => 19
    case NoDataTimeoutS => 20
    case UdpReconnectInitialMs => 21
    case UdpReconnectMaxMs => 22
    case Unknown(_) => 23
  }

  /** The keys before `step` have been written by the overlay, the others are as they were. */
  ghost predicate Progress(values: Fields, step: nat, c: DriverConfig, g: Parameters, p: Parameters) {
    && NoUnknownKey(values)
    && (forall key: Key {:trigger Written(values, c, g, p, key)} ::
          !key.Unknown? && Order(key) < step ==> Written(values, c, g, p, key))
    && (forall key: Key {:trigger Untouched(values, c, key)} ::
          !key.Unknown? && Order(key) >= step ==> Untouched(values, c, key))
  }

  lemma {:induction false} OrderInjective(a: Key, b: Key)
    requires !a.Unknown? && Order(a) == Order(b)
    ensures a == b
  {
  }

  /** Writing under one key leaves what is known about the others. */
  lemma {:induction false} Elsewhere(
    values: Fields, c: DriverConfig, g: Parameters, p: Parameters, key: Key, v: Json, k: Key)
    requires k != key
    ensures Written(values[key := v], c, g, p, k) <==> Written(values, c, g, p, k)
    ensures Untouched(values[key := v], c, k) <==> Untouched(values, c, k)
  {
    hide Field, OverlaidField, PrintedKeys;
  }

  lemma {:induction false} WriteOne(values: Fields, c: DriverConfig, g: Parameters, p: Parameters, key: Key, v: Json)
    requires Progress(values, Order(key), c, g, p) && !key.Unknown? && v == OverlaidField(c, g, p, key)
    ensures Progress(values[key := v], Order(key) + 1, c, g, p)
  {
    var after := values[key := v];
    assert Written(after, c, g, p, key);
    hide Written, Untouched, Order, OverlaidField;
    forall k: Key | !k.Unknown? && Order(k) < Order(key) + 1
      ensures Written(after, c, g, p, k)
    {
      if k != key {
        if Order(k) == Order(key) {
          OrderInjective(k, key);
        }
        Elsewhere(values, c, g, p, key, v, k);
      }
    }
    forall k: Key | !k.Unknown? && Order(k) >= Order(key) + 1
      ensures Untouched(after, c, k)
    {
      Elsewhere(values, c, g, p, key, v, k);
    }
  }

  lemma {:induction false} PrintedUntouched(base: DriverConfig, key: Key)
    requires !key.Unknown?
    ensures Untouched(ToJson(base), Printed(base), key)
  {
    hide Field;
    PrintedAlike(base);
  }

  lemma {:induction false} NothingWritten(base: DriverConfig, g: Parameters, p: Parameters)
    ensures Progress(ToJson(base), 0, Printed(base), g, p)
  {
    hide Field, Untouched, ToJson, Printed;
    forall key: Key | !key.Unknown?
      ensures Untouched(ToJson(base), Printed(base), key)
    {
      PrintedUntouched(base, key);
    }
    PrintedKeysKnown(base);
  }

  /** The JSON object under construction, and how far the overlay has got. */
  class Overlay {
    const c: DriverConfig
    const g: Parameters
    const p: Parameters
    var values: Fields
    ghost var step: nat

    ghost predicate Valid()
      reads this
    {
      PrintedOnly(c) && Progress(values, step, c, g, p)
    }

    constructor (base: DriverConfig, g: Parameters, p: Parameters)
      ensures Valid() && step == 0 && c == Printed(base) && this.g == g && this.p == p
    {
      hide Progress, Printed, ToJson;
      NothingWritten(base, g, p);
      c, this.g, this.p := Printed(base), g, p;
      values := ToJson(base);
      step := 0;
    }

    /** A field no parameter overrides keeps what was printed. */
    ghost method Keep(key: Key)
      requires Valid() && key == Name && step == Order(key)
      modifies this`step
      ensures Valid() && step == old(step) + 1
    {
      assert Untouched(values, c, key) && key in PrintedKeys(c.mode);
      WriteOne(values, c, g, p, key, values[key]);
      assert values[key := values[key]] == values;
      step := step + 1;
    }

    method StringParameter(key: Key)
      requires Valid() && StringKey(key) && step == Order(key)
      modifies this`values, this`step
      ensures Valid() && step == old(step) + 1
    {
      var value := StringOr(values, key, "");
      value := Pick(p.strings, key, value);
      assert Untouched(values, c, key);
      StringOverlaid(values, c, g, p, key);
      WriteOne(values, c, g, p, key, String(value));
      values := values[key := String(value)];
      step := step + 1;
    }

    method BoolParameter(key: Key)
      requires Valid() && BoolKey(key) && step == Order(key)
      modifies this`values, this`step
      ensures Valid() && step == old(step) + 1
    {
      var value := BoolOr(values, key, false);
      value := Pick(p.bools, key, value);
      assert Untouched(values, c, key);
      BoolOverlaid(values, c, g, p, key);
      WriteOne(values, c, g, p, key, Boolean(value));
      values := values[key := Boolean(value)];
      step := step + 1;
    }

    method IntParameter(key: Key)
      requires Valid() && IntKey(key) && step == Order(key)
      modifies this`values, this`step
      ensures Valid() && step == old(step) + 1
    {
      var value := IntOr(values, key, 0);
      value := Pick(p.ints, key, value);
      assert Untouched(values, c, key);
      IntOverlaid(values, c, g, p, key);
      WriteOne(values, c, g, p, key, Integer(value));
      values := values[key := Integer(value)];
      step := step + 1;
    }

    method DoubleParameter(key: Key)
      requires Valid() && DoubleKey(key) && step == Order(key)
      modifies this`values, this`step
      ensures Valid() && step == old(step) + 1
    {
      var value := DoubleOr(values, key, Finite(0.0));
      value := Pick(p.doubles, key, value);
      assert Untouched(values, c, key);
      DoubleOverlaid(values, c, g, p, key);
      WriteOne(values, c, g, p, key, Number(value));
      values := values[key := Number(value)];
      step := step + 1;
    }

    /** Read from both node handles, global first. */
    method FrameIdParameter()
      requires Valid() && step == Order(FrameId)
      modifies this`values, this`step
      ensures Valid() && step == old(step) + 1
    {
      assert Untouched(values, c, FrameId) && FrameId in PrintedKeys(c.mode);
      var frameId := StringOr(values, FrameId, "");
      frameId := Pick(g.strings, FrameId, frameId);
      frameId := Pick(p.strings, FrameId, frameId);
      WriteOne(values, c, g, p, FrameId, String(frameId));
      values := values[FrameId := String(frameId)];
      step := step + 1;
    }

    method AngleParameter()
      requires Valid() && step == Order(AngleOffsetDeg)
      modifies this`values, this`step
      ensures Valid() && step == old(step) + 1
    {
      assert Untouched(values, c, AngleOffsetDeg) && AngleOffsetDeg in PrintedKeys(c.mode);
      var angle := DoubleOr(values, AngleOffsetDeg, Finite(0.0));
      angle := Pick(g.doubles, AngleOffsetDeg, angle);
      angle := Pick(p.doubles, AngleOffsetDeg, angle);
      WriteOne(values, c, g, p, AngleOffsetDeg, Number(angle));
      values := values[AngleOffsetDeg := Number(angle)];
      step := step + 1;
    }

    method TransportParameters()
      requires Valid() && step == Order(Mode)
      modifies this`values, this`step
      ensures Valid() && step == Order(SafetyDebug)
    {
      StringParameter(Mode);
      StringParameter(Capture);
      StringParameter(Ip);
      IntParameter(Port);
      StringParameter(PcapPath);
      StringParameter(Topic);
      StringParameter(PointcloudTopic);
      FrameIdParameter();
      AngleParameter();
    }

    method SafetyParameters()
      requires Valid() && step == Order(SafetyDebug)
      modifies this`values, this`step
      ensures Valid() && step == Order(DiagnosticsEnabled)
    {
      BoolParameter(SafetyDebug);
      StringParameter(SafetyZonesTopic);
      StringParameter(SafetyZonesStatusTopic);
      DoubleParameter(SafetyDebugPeriodS);
      StringParameter(HttpHost);
      IntParameter(HttpPort);
      IntParameter(HttpTimeoutMs);
    }

    method DiagnosticsParameters()
      requires Valid() && step == Order(DiagnosticsEnabled)
      modifies this`values, this`step
      ensures Valid() && step == Order(UdpReconnectMaxMs) + 1
    {
      BoolParameter(DiagnosticsEnabled);
      StringParameter(DiagnosticsTopic);
      DoubleParameter(DiagnosticsPeriodS);
      DoubleParameter(NoDataTimeoutS);
      IntParameter(UdpReconnectInitialMs);
      IntParameter(UdpReconnectMaxMs);
    }
  }

  // ----- The laws -----

  ghost predicate Overlaid(values: Fields, c: DriverConfig, g: Parameters, p: Parameters) {
    NoUnknownKey(values) && forall key: Key :: !key.Unknown? ==> Written(values, c, g, p, key)
  }

  /** After the last step every key has been dealt with. */
  lemma {:induction false} AllWritten(values: Fields, c: DriverConfig, g: Parameters, p: Parameters)
    requires Progress(values, Order(UdpReconnectMaxMs) + 1, c, g, p)
    ensures Overlaid(values, c, g, p)
  {
  }

  lemma {:induction false} TextApplied(
    values: Fields, c: DriverConfig, g: Parameters, p: Parameters, key: Key, default: Option<string>, text: string)
    requires Overlaid(values, c, g, p) && !key.Unknown? && OverlaidField(c, g, p, key) == String(text)
    ensures ReadString(values, key, default) == Ok(text)
  {
    assert Written(values, c, g, p, key);
  }

  // Each group of fields describes `r` exactly when the parameters applied to `c` give `r`.

  lemma {:induction false} AngleApplied(values: Fields, c: DriverConfig, g: Parameters, p: Parameters)
    requires Overlaid(values, c, g, p)
    ensures ReadDouble(values, AngleOffsetDeg, Finite(90.0)) == Ok(AngleFrom(g, p, c))
  {
    assert Written(values, c, g, p, AngleOffsetDeg);
  }

  lemma {:induction false} OutputApplied(values: Fields, c: DriverConfig, g: Parameters, p: Parameters, r: DriverConfig)
    requires Overlaid(values, c, g, p)
    ensures DescribesOutput(values, r) <==> AppliedOutput(c, g, p, r)
  {
    hide ReadString, Overlaid;
    TextApplied(values, c, g, p, Mode, None, Pick(p.strings, Mode, ModeText(c.mode)));
    TextApplied(values, c, g, p, Capture, None, Pick(p.strings, Capture, CaptureText(c.capture)));
    TextApplied(values, c, g, p, Name, Some(DEFAULT_NAME), c.name);
    TextApplied(values, c, g, p, Topic, None, Pick(p.strings, Topic, c.topic));
    TextApplied(values, c, g, p, PointcloudTopic, Some(""), Pick(p.strings, PointcloudTopic, c.pointcloudTopic));
    TextApplied(values, c, g, p, FrameId, Some(DEFAULT_FRAME_ID), FrameIdFrom(g, p, c));
    AngleApplied(values, c, g, p);
  }

  lemma {:induction false} SafetyApplied(values: Fields, c: DriverConfig, g: Parameters, p: Parameters, r: DriverConfig)
    requires Overlaid(values, c, g, p)
    ensures DescribesSafety(values, r) <==> AppliedSafety(c, p, r)
  {
    assert Written(values, c, g, p, SafetyDebug) && Written(values, c, g, p, SafetyDebugPeriodS);
    assert Written(values, c, g, p, SafetyZonesTopic) && Written(values, c, g, p, SafetyZonesStatusTopic);
  }

  lemma {:induction false} HttpApplied(values: Fields, c: DriverConfig, g: Parameters, p: Parameters, r: DriverConfig)
    requires Overlaid(values, c, g, p) && r.httpPort >= 1
    ensures DescribesHttp(values, r) <==> AppliedHttp(c, p, r)
  {
    assert Written(values, c, g, p, HttpHost) && Written(values, c, g, p, HttpPort);
    assert Written(values, c, g, p, HttpTimeoutMs);
  }

  lemma {:induction false} DiagnosticsApplied(
    values: Fields, c: DriverConfig, g: Parameters, p: Parameters, r: DriverConfig)
    requires Overlaid(values, c, g, p)
    ensures DescribesDiagnostics(values, r) <==> AppliedDiagnostics(c, p, r)
  {
    assert Written(values, c, g, p, DiagnosticsEnabled) && Written(values, c, g, p, DiagnosticsTopic);
    assert Written(values, c, g, p, DiagnosticsPeriodS) && Written(values, c, g, p, NoDataTimeoutS);
  }

  lemma {:induction false} ReconnectApplied(
    values: Fields, c: DriverConfig, g: Parameters, p: Parameters, r: DriverConfig)
    requires Overlaid(values, c, g, p)
    ensures DescribesReconnect(values, r) <==> AppliedReconnect(c, p, r)
  {
    assert Written(values, c, g, p, UdpReconnectInitialMs) && Written(values, c, g, p, UdpReconnectMaxMs);
  }

  lemma {:induction false} TransportApplied(
    values: Fields, c: DriverConfig, g: Parameters, p: Parameters, r: DriverConfig)
    requires Overlaid(values, c, g, p) && (r.mode == UDP ==> r.port >= 1)
    ensures DescribesTransport(values, r) <==> AppliedTransport(c, p, r)
  {
    assert Written(values, c, g, p, Ip) && Written(values, c, g, p, Port) && Written(values, c, g, p, PcapPath);
  }

  lemma {:induction false} OverlaidParses(
    values: Fields, c: DriverConfig, g: Parameters, p: Parameters, r: DriverConfig)
    requires Overlaid(values, c, g, p)
    ensures Parse(Document(values)) == Ok(r) <==> WellFormed(r) && Applied(c, g, p, r)
  {
    ParseExactly(values, r);
    if WellFormed(r) {
      OutputApplied(values, c, g, p, r);
      SafetyApplied(values, c, g, p, r);
      HttpApplied(values, c, g, p, r);
      DiagnosticsApplied(values, c, g, p, r);
      ReconnectApplied(values, c, g, p, r);
      TransportApplied(values, c, g, p, r);
    }
  }

  // ----- What the overlay does, told parameter by parameter -----

  lemma {:induction false} OutputMeans(c: DriverConfig, g: Parameters, p: Parameters, d: DriverConfig)
    ensures AppliedOutput(c, g, p, d) <==>
            && (if Mode in p.strings then p.strings[Mode] == (if d.mode == UDP then "UDP" else "PCAP")
                else d.mode == c.mode)
            && (if Capture in p.strings then p.strings[Capture] == (if d.capture == FULL then "FULL" else "SINGLE")
                else d.capture == c.capture)
            && d.name == c.name
            && d.topic == (if Topic in p.strings then p.strings[Topic] else c.topic)
            && d.pointcloudTopic == (if PointcloudTopic in p.strings then p.strings[PointcloudTopic]
                else c.pointcloudTopic)
            && d.frameId == (if FrameId in p.strings then p.strings[FrameId]
                              else if FrameId in g.strings then g.strings[FrameId] else c.frameId)
            && d.angleOffsetDeg == (if AngleOffsetDeg in p.doubles then p.doubles[AngleOffsetDeg]
                                     else if AngleOffsetDeg in g.doubles then g.doubles[AngleOffsetDeg]
                                     else c.angleOffsetDeg)
  {
  }

  lemma {:induction false} SafetyMeans(c: DriverConfig, p: Parameters, d: DriverConfig)
    ensures AppliedSafety(c, p, d) <==>
            && d.safetyDebug == (if SafetyDebug in p.bools then p.bools[SafetyDebug] else c.safetyDebug)
            && d.safetyZonesTopic == (if SafetyZonesTopic in p.strings then p.strings[SafetyZonesTopic]
                else c.safetyZonesTopic)
            && d.safetyZonesStatusTopic ==
               (if SafetyZonesStatusTopic in p.strings then p.strings[SafetyZonesStatusTopic]
                else c.safetyZonesStatusTopic)
            && d.safetyDebugPeriodS == (if SafetyDebugPeriodS in p.doubles then p.doubles[SafetyDebugPeriodS]
                else c.safetyDebugPeriodS)
  {
  }

  lemma {:induction false} HttpMeans(c: DriverConfig, p: Parameters, d: DriverConfig)
    ensures AppliedHttp(c, p, d) <==>
            && d.httpHost == (if HttpHost in p.strings then p.strings[HttpHost] else c.httpHost)
            && d.httpPort == (if HttpPort in p.ints then p.ints[HttpPort] else c.httpPort)
            && d.httpTimeoutMs == (if HttpTimeoutMs in p.ints then p.ints[HttpTimeoutMs] else c.httpTimeoutMs)
  {
  }

  lemma {:induction false} DiagnosticsMeans(c: DriverConfig, p: Parameters, d: DriverConfig)
    ensures AppliedDiagnostics(c, p, d) <==>
            && d.diagnosticsEnabled == (if DiagnosticsEnabled in p.bools then p.bools[DiagnosticsEnabled]
                else c.diagnosticsEnabled)
            && d.diagnosticsTopic == (if DiagnosticsTopic in p.strings then p.strings[DiagnosticsTopic]
                else c.diagnosticsTopic)
            && d.diagnosticsPeriodS == (if DiagnosticsPeriodS in p.doubles then p.doubles[DiagnosticsPeriodS]
                else c.diagnosticsPeriodS)
            && d.noDataTimeoutS == (if NoDataTimeoutS in p.doubles then p.doubles[NoDataTimeoutS]
                else c.noDataTimeoutS)
  {
  }

  lemma {:induction false} ReconnectMeans(c: DriverConfig, p: Parameters, d: DriverConfig)
    ensures AppliedReconnect(c, p, d) <==>
            && d.udpReconnectInitialMs == (if UdpReconnectInitialMs in p.ints then p.ints[UdpReconnectInitialMs]
                else c.udpReconnectInitialMs)
            && d.udpReconnectMaxMs == (if UdpReconnectMaxMs in p.ints then p.ints[UdpReconnectMaxMs]
                else c.udpReconnectMaxMs)
  {
  }

  lemma {:induction false} TransportMeans(c: DriverConfig, p: Parameters, d: DriverConfig)
    ensures AppliedTransport(Printed(c), p, d) <==>
            && (d.mode == UDP ==>
                  && d.ip == (if Ip in p.strings then p.strings[Ip] else if c.mode == UDP then c.ip else "")
                  && d.port == (if Port in p.ints then p.ints[Port] else if c.mode == UDP then c.port else 0))
            && (d.mode == PCAP ==>
                  d.pcapPath == (if PcapPath in p.strings then p.strings[PcapPath]
                                 else if c.mode == PCAP then c.pcapPath else ""))
  {
  }

  lemma {:induction false} PrintedOutput(c: DriverConfig, g: Parameters, p: Parameters, d: DriverConfig)
    ensures AppliedOutput(Printed(c), g, p, d) <==> AppliedOutput(c, g, p, d)
  {
    hide Pick, ModeText, CaptureText;
  }

  /** Blanking the fields of the other transport touches no other field. */
  lemma {:induction false} PrintedElsewhere(c: DriverConfig, p: Parameters, d: DriverConfig)
    ensures AppliedSafety(Printed(c), p, d) <==> AppliedSafety(c, p, d)
    ensures AppliedHttp(Printed(c), p, d) <==> AppliedHttp(c, p, d)
    ensures AppliedDiagnostics(Printed(c), p, d) <==> AppliedDiagnostics(c, p, d)
    ensures AppliedReconnect(Printed(c), p, d) <==> AppliedReconnect(c, p, d)
  {
    hide Pick;
  }

  /**
   What the parameters `g` of the public and `p` of the private node handle make of a configuration:
   every key takes the private parameter if there is one, and otherwise keeps its value; only the
   frame and the angle look at the public parameter in between; a transport that the configuration
   did not use starts blank.
   */
  lemma {:induction false} AppliedMeans(c: DriverConfig, g: Parameters, p: Parameters, d: DriverConfig)
    ensures Applied(Printed(c), g, p, d) <==>
            && (if Mode in p.strings then p.strings[Mode] == (if d.mode == UDP then "UDP" else "PCAP")
                else d.mode == c.mode)
            && (if Capture in p.strings then p.strings[Capture] == (if d.capture == FULL then "FULL" else "SINGLE")
                else d.capture == c.capture)
            && d.name == c.name
            && d.topic == (if Topic in p.strings then p.strings[Topic] else c.topic)
            && d.pointcloudTopic == (if PointcloudTopic in p.strings then p.strings[PointcloudTopic]
                else c.pointcloudTopic)
            && d.frameId == (if FrameId in p.strings then p.strings[FrameId]
                              else if FrameId in g.strings then g.strings[FrameId] else c.frameId)
            && d.angleOffsetDeg == (if AngleOffsetDeg in p.doubles then p.doubles[AngleOffsetDeg]
                                     else if AngleOffsetDeg in g.doubles then g.doubles[AngleOffsetDeg]
                                     else c.angleOffsetDeg)
            && d.safetyDebug == (if SafetyDebug in p.bools then p.bools[SafetyDebug] else c.safetyDebug)
            && d.safetyZonesTopic == (if SafetyZonesTopic in p.strings then p.strings[SafetyZonesTopic]
                else c.safetyZonesTopic)
            && d.safetyZonesStatusTopic ==
               (if SafetyZonesStatusTopic in p.strings then p.strings[SafetyZonesStatusTopic]
                else c.safetyZonesStatusTopic)
            && d.safetyDebugPeriodS == (if SafetyDebugPeriodS in p.doubles then p.doubles[SafetyDebugPeriodS]
                else c.safetyDebugPeriodS)
            && d.httpHost == (if HttpHost in p.strings then p.strings[HttpHost] else c.httpHost)
            && d.httpPort == (if HttpPort in p.ints then p.ints[HttpPort] else c.httpPort)
            && d.httpTimeoutMs == (if HttpTimeoutMs in p.ints then p.ints[HttpTimeoutMs] else c.httpTimeoutMs)
            && d.diagnosticsEnabled == (if DiagnosticsEnabled in p.bools then p.bools[DiagnosticsEnabled]
                else c.diagnosticsEnabled)
            && d.diagnosticsTopic == (if DiagnosticsTopic in p.strings then p.strings[DiagnosticsTopic]
                else c.diagnosticsTopic)
            && d.diagnosticsPeriodS == (if DiagnosticsPeriodS in p.doubles then p.doubles[DiagnosticsPeriodS]
                else c.diagnosticsPeriodS)
            && d.noDataTimeoutS == (if NoDataTimeoutS in p.doubles then p.doubles[NoDataTimeoutS]
                else c.noDataTimeoutS)
            && d.udpReconnectInitialMs == (if UdpReconnectInitialMs in p.ints then p.ints[UdpReconnectInitialMs]
                else c.udpReconnectInitialMs)
            && d.udpReconnectMaxMs == (if UdpReconnectMaxMs in p.ints then p.ints[UdpReconnectMaxMs]
                else c.udpReconnectMaxMs)
            && (d.mode == UDP ==>
                  && d.ip == (if Ip in p.strings then p.strings[Ip] else if c.mode == UDP then c.ip else "")
                  && d.port == (if Port in p.ints then p.ints[Port] else if c.mode == UDP then c.port else 0))
            && (d.mode == PCAP ==>
                  d.pcapPath == (if PcapPath in p.strings then p.strings[PcapPath]
                                 else if c.mode == PCAP then c.pcapPath else ""))
  {
    hide AppliedOutput, AppliedSafety, AppliedHttp, AppliedDiagnostics, AppliedReconnect, AppliedTransport, Printed;
    PrintedOutput(c, g, p, d);
    PrintedElsewhere(c, p, d);
    OutputMeans(c, g, p, d);
    SafetyMeans(c, p, d);
    HttpMeans(c, p, d);
    DiagnosticsMeans(c, p, d);
    ReconnectMeans(c, p, d);
    TransportMeans(c, p, d);
  }

  /**
   `apply_parameter_overrides`. The overlay is rejected unless applying the parameters field
   by field gives a valid configuration, and then that one is the result: overridden fields
   have the parameter's value, all others that the resulting mode uses are kept, and a private
   parameter beats a global one, which beats the configuration.
   */
  method ApplyParameterOverrides(c: DriverConfig, g: Parameters, p: Parameters)
    returns (r: Result<DriverConfig, ConfigError>)
    ensures forall d: DriverConfig :: r == Ok(d) <==> WellFormed(d) && Applied(Printed(c), g, p, d)
  {
    hide Parse, WellFormed, Applied, Progress, Overlaid, Printed;
    var overlay := new Overlay(c, g, p);
    overlay.Keep(Name);
    overlay.TransportParameters();
    overlay.SafetyParameters();
    overlay.DiagnosticsParameters();
    r := Parse(Document(overlay.values));
    AllWritten(overlay.values, Printed(c), g, p);
    forall d: DriverConfig
      ensures r == Ok(d) <==> WellFormed(d) && Applied(Printed(c), g, p, d)
    {
      OverlaidParses(overlay.values, Printed(c), g, p, d);
    }
  }

  /** At most one configuration is the result of an overlay. */
  lemma {:induction false} AppliedUnique(
    c: DriverConfig, g: Parameters, p: Parameters, r: DriverConfig, s: DriverConfig)
    requires WellFormed(r) && WellFormed(s) && Applied(c, g, p, r) && Applied(c, g, p, s)
    ensures r == s
  {
    assert r.mode == s.mode && r.capture == s.capture;
  }

  /** With no ROS parameters, the keys the overlay adds are harmless: the configuration is unchanged. */
  lemma {:induction false} EmptyOverlay(c: DriverConfig)
    requires WellFormed(c)
    ensures Printed(c) == c
    ensures forall d: DriverConfig :: WellFormed(d) && Applied(c, NO_PARAMETERS, NO_PARAMETERS, d) <==> d == c
  {
    forall d: DriverConfig | WellFormed(d) && Applied(c, NO_PARAMETERS, NO_PARAMETERS, d)
      ensures d == c
    {
      AppliedUnique(c, NO_PARAMETERS, NO_PARAMETERS, c, d);
    }
  }
}
