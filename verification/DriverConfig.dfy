/** The typed driver configuration: parser and printer. */
module DriverConfig {
  import opened Outcomes
  import opened M360Packet
  import opened Json
  import opened Backoff

  datatype DriverMode = UDP | PCAP

  datatype CaptureType = FULL | SINGLE

  /** The allowed fields, and every other key. */
  datatype Key =
    | Mode | Capture | Name | Ip | Port | PcapPath | Topic | PointcloudTopic | FrameId
    | AngleOffsetDeg | SafetyDebug | SafetyZonesTopic | SafetyZonesStatusTopic | SafetyDebugPeriodS
    | DiagnosticsEnabled | DiagnosticsTopic | DiagnosticsPeriodS | NoDataTimeoutS
    | HttpHost | HttpPort | HttpTimeoutMs | UdpReconnectInitialMs | UdpReconnectMaxMs
    | Unknown(name: string)

  type Fields = map<Key, Json>

  datatype Document = NotAnObject | Document(fields: Fields)

  datatype ConfigError =
    | NotJsonObject
    | UnknownField
    | MissingField(key: Key)
    | InvalidType(key: Key)
    | OutOfRange(key: Key)
    | BadChoice(key: Key)
    | Empty(key: Key)
    | NotFinite(key: Key)
    | NotPositive(key: Key)
    | MaxBelowInitial

  datatype DriverConfig = DriverConfig(
    mode: DriverMode,
    capture: CaptureType,
    name: string,
    ip: string,
    port: u16,
    pcapPath: string,
    topic: string,
    pointcloudTopic: string,
    frameId: string,
    angleOffsetDeg: Double,
    safetyDebug: bool,
    safetyZonesTopic: string,
    safetyZonesStatusTopic: string,
    safetyDebugPeriodS: Double,
    diagnosticsEnabled: bool,
    diagnosticsTopic: string,
    diagnosticsPeriodS: Double,
    noDataTimeoutS: Double,
    udpReconnectInitialMs: int32,
    udpReconnectMaxMs: int32,
    httpHost: string,
    httpPort: u16,
    httpTimeoutMs: int32)

  const DEFAULT_NAME := "lidar_driver"
  const DEFAULT_FRAME_ID := "base_link"
  const DEFAULT_ZONES_TOPIC := "safety_zones_markers"
  const DEFAULT_STATUS_TOPIC := "safety_zones_status"
  const DEFAULT_DIAGNOSTICS_TOPIC := "diagnostics"
  const DEFAULT_HTTP_HOST := "192.168.0.120"

  const MODE_UDP := "UDP"
  const MODE_PCAP := "PCAP"
  const CAPTURE_FULL := "FULL"
  const CAPTURE_SINGLE := "SINGLE"

  function ModeText(m: DriverMode): string {
    if m == UDP then MODE_UDP else MODE_PCAP
  }

  function CaptureText(c: CaptureType): string {
    if c == FULL then CAPTURE_FULL else CAPTURE_SINGLE
  }

  // ----- Reading one field -----

  function ReadString(o: Fields, key: Key, default: Option<string>): (r: Result<string, ConfigError>)
    ensures key !in o && default == None ==> r == Err(MissingField(key))
    ensures key in o && !o[key].String? ==> r == Err(InvalidType(key))
  {
    if key !in o then
      if default.Some? then Ok(default.value) else Err(MissingField(key))
    else if o[key].String? then Ok(o[key].s) else Err(InvalidType(key))
  }

  function ReadBool(o: Fields, key: Key, default: bool): (r: Result<bool, ConfigError>)
    ensures r.Err? <==> key in o && !o[key].Boolean?
    ensures r.Err? ==> r.error == InvalidType(key)
  {
    if key !in o then Ok(default)
    else if o[key].Boolean? then Ok(o[key].b) else Err(InvalidType(key))
  }

  function ReadDouble(o: Fields, key: Key, default: Double): (r: Result<Double, ConfigError>)
    ensures r.Err? <==> key in o && !o[key].Integer? && !o[key].Number?
    ensures r.Err? ==> r.error == InvalidType(key)
  {
    if key !in o then Ok(default)
    else
      match GetDouble(o[key])
      case Some(d) => Ok(d)
      case None => Err(InvalidType(key))
  }

  function ReadInt(o: Fields, key: Key, default: Option<int32>): (r: Result<int32, ConfigError>)
    ensures key !in o && default == None ==> r == Err(MissingField(key))
    ensures key in o && !o[key].Integer? ==> r == Err(InvalidType(key))
    ensures key in o && o[key].Integer? && 0 <= o[key].n <= 0x7FFF_FFFF ==> r == Ok(o[key].n)
    ensures key in o && o[key].Integer? && 0x7FFF_FFFF < o[key].n <= 0x7FFF_FFFF_FFFF_FFFF ==> r == Err(OutOfRange(key))
  {
    if key !in o then
      if default.Some? then Ok(default.value) else Err(MissingField(key))
    else if !o[key].Integer? then Err(InvalidType(key))
    else
      var n := ToInt64(o[key].n);
      if n < -0x8000_0000 || n > 0x7FFF_FFFF then Err(OutOfRange(key)) else Ok(n)
  }

  function ReadPort(o: Fields, key: Key, default: Option<int32>): Result<u16, ConfigError> {
    var n :- ReadInt(o, key, default);
    if n < 1 || n > 65535 then Err(OutOfRange(key)) else Ok(n)
  }

  function ReadMode(o: Fields): Result<DriverMode, ConfigError> {
    var text :- ReadString(o, Mode, None);
    if text == MODE_UDP then Ok(UDP)
    else if text == MODE_PCAP then Ok(PCAP)
    else Err(BadChoice(Mode))
  }

  function ReadCapture(o: Fields): Result<CaptureType, ConfigError> {
    var text :- ReadString(o, Capture, None);
    if text == CAPTURE_FULL then Ok(FULL)
    else if text == CAPTURE_SINGLE then Ok(SINGLE)
    else Err(BadChoice(Capture))
  }

  predicate Positive(d: Double) {
    d.Finite? && d.value > 0.0
  }

  // ----- The parser -----

  /** The fields that do not depend on the mode, in the order in which they are read. */
  function ReadCommon(o: Fields): Result<DriverConfig, ConfigError> {
    var mode :- ReadMode(o);
    var capture :- ReadCapture(o);
    var name :- ReadString(o, Name, Some(DEFAULT_NAME));
    var topic :- ReadString(o, Topic, None);
    var pointcloudTopic :- ReadString(o, PointcloudTopic, Some(""));
    var frameId :- ReadString(o, FrameId, Some(DEFAULT_FRAME_ID));
    var angleOffsetDeg :- ReadDouble(o, AngleOffsetDeg, Finite(90.0));
    var safetyDebug :- ReadBool(o, SafetyDebug, false);
    var safetyZonesTopic :- ReadString(o, SafetyZonesTopic, Some(DEFAULT_ZONES_TOPIC));
    var safetyZonesStatusTopic :- ReadString(o, SafetyZonesStatusTopic, Some(DEFAULT_STATUS_TOPIC));
    var safetyDebugPeriodS :- ReadDouble(o, SafetyDebugPeriodS, Finite(1.0));
    var diagnosticsEnabled :- ReadBool(o, DiagnosticsEnabled, true);
    var diagnosticsTopic :- ReadString(o, DiagnosticsTopic, Some(DEFAULT_DIAGNOSTICS_TOPIC));
    var diagnosticsPeriodS :- ReadDouble(o, DiagnosticsPeriodS, Finite(1.0));
    var noDataTimeoutS :- ReadDouble(o, NoDataTimeoutS, Finite(2.0));
    var udpReconnectInitialMs :- ReadInt(o, UdpReconnectInitialMs, Some(250));
    var udpReconnectMaxMs :- ReadInt(o, UdpReconnectMaxMs, Some(5000));
    var httpHost :- ReadString(o, HttpHost, Some(DEFAULT_HTTP_HOST));
    var httpPort :- ReadPort(o, HttpPort, Some(80));
    var httpTimeoutMs :- ReadInt(o, HttpTimeoutMs, Some(3000));
    Ok(DriverConfig(
         mode, capture, name, "", 0, "", topic, pointcloudTopic, frameId, angleOffsetDeg, safetyDebug,
         safetyZonesTopic, safetyZonesStatusTopic, safetyDebugPeriodS, diagnosticsEnabled, diagnosticsTopic,
         diagnosticsPeriodS, noDataTimeoutS, udpReconnectInitialMs, udpReconnectMaxMs, httpHost, httpPort,
         httpTimeoutMs))
  }

  /** The checks made before the mode-specific fields are read. */
  function CheckCommon(c: DriverConfig): Result<(), ConfigError> {
    if c.name == "" then Err(Empty(Name))
    else if c.topic == "" then Err(Empty(Topic))
    else if c.frameId == "" then Err(Empty(FrameId))
    else if c.safetyZonesTopic == "" then Err(Empty(SafetyZonesTopic))
    else if c.safetyZonesStatusTopic == "" then Err(Empty(SafetyZonesStatusTopic))
    else if c.httpHost == "" then Err(Empty(HttpHost))
    else if c.diagnosticsTopic == "" then Err(Empty(DiagnosticsTopic))
    else if c.angleOffsetDeg.NonFinite? then Err(NotFinite(AngleOffsetDeg))
    else if !Positive(c.safetyDebugPeriodS) then Err(NotPositive(SafetyDebugPeriodS))
    else if c.httpTimeoutMs <= 0 then Err(NotPositive(HttpTimeoutMs))
    else if !Positive(c.diagnosticsPeriodS) then Err(NotPositive(DiagnosticsPeriodS))
    else if !Positive(c.noDataTimeoutS) then Err(NotPositive(NoDataTimeoutS))
    else if c.udpReconnectInitialMs <= 0 then Err(NotPositive(UdpReconnectInitialMs))
    else if c.udpReconnectMaxMs < c.udpReconnectInitialMs then Err(MaxBelowInitial)
    else Ok(())
  }

  /** The fields of the chosen transport, read last. */
  function ReadTransport(o: Fields, common: DriverConfig): Result<DriverConfig, ConfigError> {
    if common.mode == UDP then
      var ip :- ReadString(o, Ip, None);
      var port :- ReadPort(o, Port, None);
      Ok(common.(ip := ip, port := port))
    else
      var path :- ReadString(o, PcapPath, None);
      if path == "" then Err(Empty(PcapPath)) else Ok(common.(pcapPath := path))
  }

  function Parse(value: Document): Result<DriverConfig, ConfigError> {
    if value.NotAnObject? then Err(NotJsonObject)
    else if exists key :: key in value.fields && key.Unknown? then Err(UnknownField)
    else
      var o := value.fields;
      var common :- ReadCommon(o);
      var _ :- CheckCommon(common);
      ReadTransport(o, common)
  }

  // ----- The printer -----

  const COMMON_KEYS: set<Key> := {
    Mode, Capture, Name, Topic, PointcloudTopic, FrameId, AngleOffsetDeg, SafetyDebug, SafetyZonesTopic,
    SafetyZonesStatusTopic, SafetyDebugPeriodS, DiagnosticsEnabled, DiagnosticsTopic, DiagnosticsPeriodS,
    NoDataTimeoutS, UdpReconnectInitialMs, UdpReconnectMaxMs, HttpHost, HttpPort, HttpTimeoutMs}

  /** The value printed under a key. */
  function Field(c: DriverConfig, key: Key): Json {
    match key
    case Mode => String(ModeText(c.mode))
    case Capture => String(CaptureText(c.capture))
    case Name => String(c.name)
    case Ip => String(c.ip)
    case Port => Integer(c.port)
    case PcapPath => String(c.pcapPath)
    case Topic => String(c.topic)
    case PointcloudTopic => String(c.pointcloudTopic)
    case FrameId => String(c.frameId)
    case AngleOffsetDeg => Number(c.angleOffsetDeg)
    case SafetyDebug => Boolean(c.safetyDebug)
    case SafetyZonesTopic => String(c.safetyZonesTopic)
    case SafetyZonesStatusTopic => String(c.safetyZonesStatusTopic)
    case SafetyDebugPeriodS => Number(c.safetyDebugPeriodS)
    case DiagnosticsEnabled => Boolean(c.diagnosticsEnabled)
    case DiagnosticsTopic => String(c.diagnosticsTopic)
    case DiagnosticsPeriodS => Number(c.diagnosticsPeriodS)
    case NoDataTimeoutS => Number(c.noDataTimeoutS)
    case HttpHost => String(c.httpHost)
    case HttpPort => Integer(c.httpPort)
    case HttpTimeoutMs => Integer(c.httpTimeoutMs)
    case UdpReconnectInitialMs => Integer(c.udpReconnectInitialMs)
    case UdpReconnectMaxMs => Integer(c.udpReconnectMaxMs)
    case Unknown(_) => Null
  }

  function PrintedKeys(mode: DriverMode): set<Key> {
    COMMON_KEYS + if mode == UDP then {Ip, Port} else {PcapPath}
  }

  function ToJson(c: DriverConfig): Fields {
    map key | key in PrintedKeys(c.mode) :: Field(c, key)
  }

  // ----- What a configuration returned by the parser satisfies -----

  /** The validated ranges of the fields of both modes. */
  predicate CommonWellFormed(c: DriverConfig) {
    && c.name != "" && c.topic != "" && c.frameId != "" && c.safetyZonesTopic != ""
    && c.safetyZonesStatusTopic != "" && c.httpHost != "" && c.diagnosticsTopic != ""
    && c.angleOffsetDeg.Finite?
    && Positive(c.safetyDebugPeriodS) && Positive(c.diagnosticsPeriodS) && Positive(c.noDataTimeoutS)
    && c.httpTimeoutMs > 0
    && 0 < c.udpReconnectInitialMs <= c.udpReconnectMaxMs
  }

  /** All validated ranges; the fields of the other mode keep their defaults. */
  predicate WellFormed(c: DriverConfig) {
    && CommonWellFormed(c)
    && c.httpPort >= 1
    && (c.mode == UDP ==> c.port >= 1 && c.pcapPath == "")
    && (c.mode == PCAP ==> c.pcapPath != "" && c.ip == "" && c.port == 0)
  }

  predicate DescribesOutput(o: Fields, c: DriverConfig) {
    && ReadMode(o) == Ok(c.mode)
    && ReadCapture(o) == Ok(c.capture)
    && ReadString(o, Name, Some(DEFAULT_NAME)) == Ok(c.name)
    && ReadString(o, Topic, None) == Ok(c.topic)
    && ReadString(o, PointcloudTopic, Some("")) == Ok(c.pointcloudTopic)
    && ReadString(o, FrameId, Some(DEFAULT_FRAME_ID)) == Ok(c.frameId)
    && ReadDouble(o, AngleOffsetDeg, Finite(90.0)) == Ok(c.angleOffsetDeg)
  }

  predicate DescribesSafety(o: Fields, c: DriverConfig) {
    && ReadBool(o, SafetyDebug, false) == Ok(c.safetyDebug)
    && ReadString(o, SafetyZonesTopic, Some(DEFAULT_ZONES_TOPIC)) == Ok(c.safetyZonesTopic)
    && ReadString(o, SafetyZonesStatusTopic, Some(DEFAULT_STATUS_TOPIC)) == Ok(c.safetyZonesStatusTopic)
    && ReadDouble(o, SafetyDebugPeriodS, Finite(1.0)) == Ok(c.safetyDebugPeriodS)
  }

  predicate DescribesHttp(o: Fields, c: DriverConfig) {
    && ReadString(o, HttpHost, Some(DEFAULT_HTTP_HOST)) == Ok(c.httpHost)
    && ReadPort(o, HttpPort, Some(80)) == Ok(c.httpPort)
    && ReadInt(o, HttpTimeoutMs, Some(3000)) == Ok(c.httpTimeoutMs)
  }

  predicate DescribesDiagnostics(o: Fields, c: DriverConfig) {
    && ReadBool(o, DiagnosticsEnabled, true) == Ok(c.diagnosticsEnabled)
    && ReadString(o, DiagnosticsTopic, Some(DEFAULT_DIAGNOSTICS_TOPIC)) == Ok(c.diagnosticsTopic)
    && ReadDouble(o, DiagnosticsPeriodS, Finite(1.0)) == Ok(c.diagnosticsPeriodS)
    && ReadDouble(o, NoDataTimeoutS, Finite(2.0)) == Ok(c.noDataTimeoutS)
  }

  predicate DescribesReconnect(o: Fields, c: DriverConfig) {
    && ReadInt(o, UdpReconnectInitialMs, Some(250)) == Ok(c.udpReconnectInitialMs)
    && ReadInt(o, UdpReconnectMaxMs, Some(5000)) == Ok(c.udpReconnectMaxMs)
  }

  /** `c` is what the fields of both modes say, each by itself. */
  predicate DescribesCommon(o: Fields, c: DriverConfig) {
    && DescribesOutput(o, c) && DescribesSafety(o, c) && DescribesHttp(o, c)
    && DescribesDiagnostics(o, c) && DescribesReconnect(o, c)
  }

  predicate DescribesTransport(o: Fields, c: DriverConfig) {
    && (c.mode == UDP ==> ReadString(o, Ip, None) == Ok(c.ip) && ReadPort(o, Port, None) == Ok(c.port))
    && (c.mode == PCAP ==> ReadString(o, PcapPath, None) == Ok(c.pcapPath))
  }

  /** `c` is what the fields say, each by itself. */
  predicate Describes(o: Fields, c: DriverConfig) {
    DescribesCommon(o, c) && DescribesTransport(o, c)
  }

  function WithoutTransport(c: DriverConfig): DriverConfig {
    c.(ip := "", port := 0, pcapPath := "")
  }

  lemma {:induction false} ReadCommonSound(o: Fields)
    ensures ReadCommon(o).Ok? ==>
              DescribesCommon(o, ReadCommon(o).value) && ReadCommon(o).value == WithoutTransport(ReadCommon(o).value)
              && ReadCommon(o).value.httpPort >= 1
  {
  }

  lemma {:induction false} ReadCommonComplete(o: Fields, c: DriverConfig)
    requires DescribesCommon(o, c)
    ensures ReadCommon(o) == Ok(WithoutTransport(c))
  {
  }

  lemma {:induction false} DescribesWithoutTransport(o: Fields, c: DriverConfig)
    ensures DescribesCommon(o, c) <==> DescribesCommon(o, WithoutTransport(c))
  {
  }

  lemma {:induction false} CheckCommonExactly(c: DriverConfig)
    ensures CheckCommon(c).Ok? <==> CommonWellFormed(c)
  {
  }

  predicate NoUnknownKey(o: Fields) {
    forall key :: key in o ==> !key.Unknown?
  }

  lemma {:induction false} ReadTransportExactly(o: Fields, common: DriverConfig, c: DriverConfig)
    requires common == WithoutTransport(common)
    ensures ReadTransport(o, common) == Ok(c) <==>
            && WithoutTransport(c) == common && DescribesTransport(o, c)
            && (c.mode == UDP ==> c.port >= 1 && c.pcapPath == "")
            && (c.mode == PCAP ==> c.pcapPath != "" && c.ip == "" && c.port == 0)
  {
  }

  lemma {:induction false} ParseSound(o: Fields)
    ensures var r := Parse(Document(o));
            r.Ok? ==> NoUnknownKey(o) && Describes(o, r.value) && WellFormed(r.value)
  {
    if Parse(Document(o)).Ok? {
      var c := Parse(Document(o)).value;
      ReadCommonSound(o);
      ReadTransportExactly(o, ReadCommon(o).value, c);
      CheckCommonExactly(WithoutTransport(c));
      DescribesWithoutTransport(o, c);
    }
  }

  lemma {:induction false} ParseComplete(o: Fields, c: DriverConfig)
    requires NoUnknownKey(o) && Describes(o, c) && WellFormed(c)
    ensures Parse(Document(o)) == Ok(c)
  {
    ReadCommonComplete(o, c);
    CheckCommonExactly(WithoutTransport(c));
    ReadTransportExactly(o, WithoutTransport(c), c);
  }

  /** The parser accepts a document exactly when it describes a well-formed configuration: that one. */
  lemma {:induction false} ParseExactly(o: Fields, c: DriverConfig)
    ensures Parse(Document(o)) == Ok(c) <==> NoUnknownKey(o) && Describes(o, c) && WellFormed(c)
  {
    ParseSound(o);
    if NoUnknownKey(o) && Describes(o, c) && WellFormed(c) {
      ParseComplete(o, c);
    }
  }

  // ----- What the parser accepts, told from the document key by key -----

  lemma {:induction false} OutputMeans(o: Fields, c: DriverConfig)
    ensures DescribesOutput(o, c) <==>
            && Mode in o && o[Mode] == String(if c.mode == UDP then "UDP" else "PCAP")
            && Capture in o && o[Capture] == String(if c.capture == FULL then "FULL" else "SINGLE")
            && (if Name in o then o[Name] == String(c.name) else c.name == "lidar_driver")
            && Topic in o && o[Topic] == String(c.topic)
            && (if PointcloudTopic in o then o[PointcloudTopic] == String(c.pointcloudTopic)
                else c.pointcloudTopic == "")
            && (if FrameId in o then o[FrameId] == String(c.frameId) else c.frameId == "base_link")
            && (if AngleOffsetDeg in o then
                  || o[AngleOffsetDeg] == Number(c.angleOffsetDeg)
                  || (o[AngleOffsetDeg].Integer? && c.angleOffsetDeg == Finite(o[AngleOffsetDeg].n as real))
                else c.angleOffsetDeg == Finite(90.0))
  {
  }

  lemma {:induction false} SafetyMeans(o: Fields, c: DriverConfig)
    ensures DescribesSafety(o, c) <==>
            && (if SafetyDebug in o then o[SafetyDebug] == Boolean(c.safetyDebug) else c.safetyDebug == false)
            && (if SafetyZonesTopic in o then o[SafetyZonesTopic] == String(c.safetyZonesTopic)
                else c.safetyZonesTopic == "safety_zones_markers")
            && (if SafetyZonesStatusTopic in o then o[SafetyZonesStatusTopic] == String(c.safetyZonesStatusTopic)
                else c.safetyZonesStatusTopic == "safety_zones_status")
            && (if SafetyDebugPeriodS in o then
                  || o[SafetyDebugPeriodS] == Number(c.safetyDebugPeriodS)
                  || (o[SafetyDebugPeriodS].Integer? && c.safetyDebugPeriodS == Finite(o[SafetyDebugPeriodS].n as real))
                else c.safetyDebugPeriodS == Finite(1.0))
  {
  }

  lemma {:induction false} HttpMeans(o: Fields, c: DriverConfig)
    requires c.httpPort >= 1 && c.httpTimeoutMs > 0
    ensures DescribesHttp(o, c) <==>
            && (if HttpHost in o then o[HttpHost] == String(c.httpHost) else c.httpHost == "192.168.0.120")
            && (if HttpPort in o then o[HttpPort] == Integer(c.httpPort) else c.httpPort == 80)
            && (if HttpTimeoutMs in o then o[HttpTimeoutMs] == Integer(c.httpTimeoutMs) else c.httpTimeoutMs == 3000)
  {
  }

  lemma {:induction false} DiagnosticsMeans(o: Fields, c: DriverConfig)
    ensures DescribesDiagnostics(o, c) <==>
            && (if DiagnosticsEnabled in o then o[DiagnosticsEnabled] == Boolean(c.diagnosticsEnabled)
                else c.diagnosticsEnabled == true)
            && (if DiagnosticsTopic in o then o[DiagnosticsTopic] == String(c.diagnosticsTopic)
                else c.diagnosticsTopic == "diagnostics")
            && (if DiagnosticsPeriodS in o then
                  || o[DiagnosticsPeriodS] == Number(c.diagnosticsPeriodS)
                  || (o[DiagnosticsPeriodS].Integer? && c.diagnosticsPeriodS == Finite(o[DiagnosticsPeriodS].n as real))
                else c.diagnosticsPeriodS == Finite(1.0))
            && (if NoDataTimeoutS in o then
                  || o[NoDataTimeoutS] == Number(c.noDataTimeoutS)
                  || (o[NoDataTimeoutS].Integer? && c.noDataTimeoutS == Finite(o[NoDataTimeoutS].n as real))
                else c.noDataTimeoutS == Finite(2.0))
  {
  }

  lemma {:induction false} ReconnectMeans(o: Fields, c: DriverConfig)
    requires c.udpReconnectInitialMs > 0 && c.udpReconnectMaxMs > 0
    ensures DescribesReconnect(o, c) <==>
            && (if UdpReconnectInitialMs in o then o[UdpReconnectInitialMs] == Integer(c.udpReconnectInitialMs)
                else c.udpReconnectInitialMs == 250)
            && (if UdpReconnectMaxMs in o then o[UdpReconnectMaxMs] == Integer(c.udpReconnectMaxMs)
                else c.udpReconnectMaxMs == 5000)
  {
  }

  lemma {:induction false} TransportMeans(o: Fields, c: DriverConfig)
    requires c.mode == UDP ==> c.port >= 1
    ensures DescribesTransport(o, c) <==>
            && (c.mode == UDP ==> Ip in o && o[Ip] == String(c.ip) && Port in o && o[Port] == Integer(c.port))
            && (c.mode == PCAP ==> PcapPath in o && o[PcapPath] == String(c.pcapPath))
  {
  }

  lemma {:induction false} RangesMean(c: DriverConfig)
    ensures WellFormed(c) <==>
            && c.name != "" && c.topic != "" && c.frameId != "" && c.safetyZonesTopic != ""
            && c.safetyZonesStatusTopic != "" && c.httpHost != "" && c.diagnosticsTopic != ""
            && c.angleOffsetDeg.Finite?
            && c.safetyDebugPeriodS.Finite? && c.safetyDebugPeriodS.value > 0.0
            && c.diagnosticsPeriodS.Finite? && c.diagnosticsPeriodS.value > 0.0
            && c.noDataTimeoutS.Finite? && c.noDataTimeoutS.value > 0.0
            && c.httpTimeoutMs > 0 && c.httpPort >= 1 && 0 < c.udpReconnectInitialMs <= c.udpReconnectMaxMs
            && (c.mode == UDP ==> c.port >= 1 && c.pcapPath == "")
            && (c.mode == PCAP ==> c.pcapPath != "" && c.ip == "" && c.port == 0)
  {
  }

  /**
   The parser, key by key: which keys must be there, which type each must have, what an absent one
   stands for, and within which ranges the values must lie. Anything else is rejected.
   */
  lemma {:induction false} ParseMeans(o: Fields, c: DriverConfig)
    ensures Parse(Document(o)) == Ok(c) <==>
            && (forall name: string :: Unknown(name) !in o)
            && Mode in o && o[Mode] == String(if c.mode == UDP then "UDP" else "PCAP")
            && Capture in o && o[Capture] == String(if c.capture == FULL then "FULL" else "SINGLE")
            && (if Name in o then o[Name] == String(c.name) else c.name == "lidar_driver")
            && Topic in o && o[Topic] == String(c.topic)
            && (if PointcloudTopic in o then o[PointcloudTopic] == String(c.pointcloudTopic)
                else c.pointcloudTopic == "")
            && (if FrameId in o then o[FrameId] == String(c.frameId) else c.frameId == "base_link")
            && (if AngleOffsetDeg in o then
                  || o[AngleOffsetDeg] == Number(c.angleOffsetDeg)
                  || (o[AngleOffsetDeg].Integer? && c.angleOffsetDeg == Finite(o[AngleOffsetDeg].n as real))
                else c.angleOffsetDeg == Finite(90.0))
            && (if SafetyDebug in o then o[SafetyDebug] == Boolean(c.safetyDebug) else c.safetyDebug == false)
            && (if SafetyZonesTopic in o then o[SafetyZonesTopic] == String(c.safetyZonesTopic)
                else c.safetyZonesTopic == "safety_zones_markers")
            && (if SafetyZonesStatusTopic in o then o[SafetyZonesStatusTopic] == String(c.safetyZonesStatusTopic)
                else c.safetyZonesStatusTopic == "safety_zones_status")
            && (if SafetyDebugPeriodS in o then
                  || o[SafetyDebugPeriodS] == Number(c.safetyDebugPeriodS)
                  || (o[SafetyDebugPeriodS].Integer? && c.safetyDebugPeriodS == Finite(o[SafetyDebugPeriodS].n as real))
                else c.safetyDebugPeriodS == Finite(1.0))
            && (if HttpHost in o then o[HttpHost] == String(c.httpHost) else c.httpHost == "192.168.0.120")
            && (if HttpPort in o then o[HttpPort] == Integer(c.httpPort) else c.httpPort == 80)
            && (if HttpTimeoutMs in o then o[HttpTimeoutMs] == Integer(c.httpTimeoutMs) else c.httpTimeoutMs == 3000)
            && (if DiagnosticsEnabled in o then o[DiagnosticsEnabled] == Boolean(c.diagnosticsEnabled)
                else c.diagnosticsEnabled == true)
            && (if DiagnosticsTopic in o then o[DiagnosticsTopic] == String(c.diagnosticsTopic)
                else c.diagnosticsTopic == "diagnostics")
            && (if DiagnosticsPeriodS in o then
                  || o[DiagnosticsPeriodS] == Number(c.diagnosticsPeriodS)
                  || (o[DiagnosticsPeriodS].Integer? && c.diagnosticsPeriodS == Finite(o[DiagnosticsPeriodS].n as real))
                else c.diagnosticsPeriodS == Finite(1.0))
            && (if NoDataTimeoutS in o then
                  || o[NoDataTimeoutS] == Number(c.noDataTimeoutS)
                  || (o[NoDataTimeoutS].Integer? && c.noDataTimeoutS == Finite(o[NoDataTimeoutS].n as real))
                else c.noDataTimeoutS == Finite(2.0))
            && (if UdpReconnectInitialMs in o then o[UdpReconnectInitialMs] == Integer(c.udpReconnectInitialMs)
                else c.udpReconnectInitialMs == 250)
            && (if UdpReconnectMaxMs in o then o[UdpReconnectMaxMs] == Integer(c.udpReconnectMaxMs)
                else c.udpReconnectMaxMs == 5000)
            && (c.mode == UDP ==> Ip in o && o[Ip] == String(c.ip) && Port in o && o[Port] == Integer(c.port))
            && (c.mode == PCAP ==> PcapPath in o && o[PcapPath] == String(c.pcapPath))
            && c.name != "" && c.topic != "" && c.frameId != "" && c.safetyZonesTopic != ""
            && c.safetyZonesStatusTopic != "" && c.httpHost != "" && c.diagnosticsTopic != ""
            && c.angleOffsetDeg.Finite?
            && c.safetyDebugPeriodS.Finite? && c.safetyDebugPeriodS.value > 0.0
            && c.diagnosticsPeriodS.Finite? && c.diagnosticsPeriodS.value > 0.0
            && c.noDataTimeoutS.Finite? && c.noDataTimeoutS.value > 0.0
            && c.httpTimeoutMs > 0 && c.httpPort >= 1 && 0 < c.udpReconnectInitialMs <= c.udpReconnectMaxMs
            && (c.mode == UDP ==> c.port >= 1 && c.pcapPath == "")
            && (c.mode == PCAP ==> c.pcapPath != "" && c.ip == "" && c.port == 0)
  {
    hide Parse, WellFormed, DescribesOutput, DescribesSafety, DescribesHttp, DescribesDiagnostics;
    hide DescribesReconnect, DescribesTransport;
    ParseExactly(o, c);
    assert NoUnknownKey(o) <==> forall name: string :: Unknown(name) !in o by {
      assert forall key :: key in o && key.Unknown? ==> key == Unknown(key.name);
    }
    RangesMean(c);
    OutputMeans(o, c);
    SafetyMeans(o, c);
    DiagnosticsMeans(o, c);
    if c.httpPort >= 1 && c.httpTimeoutMs > 0 {
      HttpMeans(o, c);
    }
    if c.udpReconnectInitialMs > 0 && c.udpReconnectMaxMs > 0 {
      ReconnectMeans(o, c);
    }
    if c.mode == UDP ==> c.port >= 1 {
      TransportMeans(o, c);
    }
  }

  predicate IsTransport(key: Key) {
    key.Ip? || key.Port? || key.PcapPath?
  }

  /** The fields hold under a key what the printer writes there. */
  predicate HoldsAt(o: Fields, c: DriverConfig, key: Key) {
    key in o && o[key] == Field(c, key)
  }

  ghost predicate Holds(o: Fields, c: DriverConfig) {
    && (forall key: Key :: !key.Unknown? && !IsTransport(key) ==> HoldsAt(o, c, key))
    && (c.mode == UDP ==> HoldsAt(o, c, Ip) && HoldsAt(o, c, Port))
    && (c.mode == PCAP ==> HoldsAt(o, c, PcapPath))
  }

  lemma {:induction false} PrintedHolds(c: DriverConfig)
    ensures Holds(ToJson(c), c)
  {
  }

  lemma {:induction false} HeldOutput(o: Fields, c: DriverConfig)
    requires Holds(o, c)
    ensures DescribesOutput(o, c)
  {
    assert HoldsAt(o, c, Mode) && HoldsAt(o, c, Capture) && HoldsAt(o, c, Name) && HoldsAt(o, c, Topic);
    assert HoldsAt(o, c, PointcloudTopic) && HoldsAt(o, c, FrameId) && HoldsAt(o, c, AngleOffsetDeg);
  }

  lemma {:induction false} HeldSafety(o: Fields, c: DriverConfig)
    requires Holds(o, c)
    ensures DescribesSafety(o, c)
  {
    assert HoldsAt(o, c, SafetyDebug) && HoldsAt(o, c, SafetyDebugPeriodS);
    assert HoldsAt(o, c, SafetyZonesTopic) && HoldsAt(o, c, SafetyZonesStatusTopic);
  }

  lemma {:induction false} HeldHttp(o: Fields, c: DriverConfig)
    requires Holds(o, c) && c.httpPort >= 1
    ensures DescribesHttp(o, c)
  {
    assert HoldsAt(o, c, HttpHost) && HoldsAt(o, c, HttpPort) && HoldsAt(o, c, HttpTimeoutMs);
  }

  lemma {:induction false} HeldDiagnostics(o: Fields, c: DriverConfig)
    requires Holds(o, c)
    ensures DescribesDiagnostics(o, c)
  {
    assert HoldsAt(o, c, DiagnosticsEnabled) && HoldsAt(o, c, DiagnosticsTopic);
    assert HoldsAt(o, c, DiagnosticsPeriodS) && HoldsAt(o, c, NoDataTimeoutS);
  }

  lemma {:induction false} HeldReconnect(o: Fields, c: DriverConfig)
    requires Holds(o, c)
    ensures DescribesReconnect(o, c)
  {
    assert HoldsAt(o, c, UdpReconnectInitialMs) && HoldsAt(o, c, UdpReconnectMaxMs);
  }

  lemma {:induction false} HeldTransport(o: Fields, c: DriverConfig)
    requires Holds(o, c) && (c.mode == UDP ==> c.port >= 1)
    ensures DescribesTransport(o, c)
  {
  }

  lemma {:induction false} HeldDescribes(o: Fields, c: DriverConfig)
    requires Holds(o, c) && c.httpPort >= 1 && (c.mode == UDP ==> c.port >= 1)
    ensures Describes(o, c)
  {
    HeldOutput(o, c);
    HeldSafety(o, c);
    HeldHttp(o, c);
    HeldDiagnostics(o, c);
    HeldReconnect(o, c);
    HeldTransport(o, c);
  }

  lemma {:induction false} PrintedKeysKnown(c: DriverConfig)
    ensures NoUnknownKey(ToJson(c))
  {
  }

  /**
   The round trip: parsing a printed configuration gives it back exactly when it is
   well-formed, which is what every configuration returned by the parser is.
   */
  lemma {:induction false} PrintParse(c: DriverConfig)
    ensures Parse(Document(ToJson(c))) == Ok(c) <==> WellFormed(c)
  {
    ParseExactly(ToJson(c), c);
    if WellFormed(c) {
      PrintedKeysKnown(c);
      PrintedHolds(c);
      HeldDescribes(ToJson(c), c);
    }
  }

  lemma {:induction false} ParsePrintParse(value: Document)
    ensures Parse(value).Ok? ==> Parse(Document(ToJson(Parse(value).value))) == Parse(value)
  {
    if Parse(value).Ok? {
      ParseSound(value.fields);
      PrintParse(Parse(value).value);
    }
  }

  /** For every accepted configuration the clamps of the receive loop change nothing. */
  lemma {:induction false} ClampsAreNoOps(value: Document)
    ensures Parse(value).Ok? ==>
              var c := Parse(value).value;
              && FirstDelay(c.udpReconnectInitialMs) == c.udpReconnectInitialMs
              && LongestDelay(c.udpReconnectInitialMs, c.udpReconnectMaxMs) == c.udpReconnectMaxMs
  {
    if Parse(value).Ok? {
      assert value.Document?;
      hide Parse, Describes, WellFormed;
      ParseSound(value.fields);
      RangesMean(Parse(value).value);
    }
  }
}
