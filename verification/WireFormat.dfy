/** Version 1 of the wire protocol as a relation between messages and bytes:
    what is valid, how it is laid out, and what a receiver makes of any bytes. */
module WireFormat {
  import opened Wrappers
  import opened Bytes
  import Utf8

  const MAGIC: u32 := 0x3142_4450
  const VERSION: u16 := 1
  const MAX_PAYLOAD: nat := 8 * 1024 * 1024
  const MAX_SAMPLES: nat := 64

  const CLIENT_HELLO: u16 := 1
  const SERVER_CONFIG: u16 := 2
  const VIDEO_FRAME: u16 := 3
  const INPUT_BATCH: u16 := 4
  const CONTROL: u16 := 5

  datatype ClientHello = ClientHello(
    capabilities: u32, displayWidth: u16, displayHeight: u16, rotationDegrees: u16, maxTouchContacts: u16,
    maxPenPressure: u16, videoCodecMask: u16, maxVideoWidth: u32, maxVideoHeight: u32,
    deviceName: seq<u8>, osName: seq<u8>)

  datatype ServerConfig = ServerConfig(
    sessionId: u64, displayId: u32, videoWidth: u16, videoHeight: u16, videoFps: u16, videoBitrateMbps: u16,
    contentLeft: u32, contentTop: u32, contentWidth: u32, contentHeight: u32, configFlags: u32)

  datatype VideoFrame = VideoFrame(captureTimestampNs: u64, presentationTimestampNs: u64, accessUnit: seq<u8>)

  datatype InputSample = InputSample(
    timestampDeltaUs: u32, pointerId: u16, tool: u8, contactFlags: u8, x: u16, y: u16, pressure: u16,
    tiltX: i16, tiltY: i16, distance: u16, buttons: u16)

  datatype InputBatch = InputBatch(batchTimestampNs: u64, samples: seq<InputSample>)

  datatype Control =
    | ClockSyncRequest(clientSend: u64)
    | ClockSyncResponse(clientSent: u64, hostReceive: u64, hostSend: u64)
    | RequestIdr
    | OrientationChanged(rotationDegrees: u16)
    | CapabilityChanged(capabilities: u32)
    | Telemetry(rttUs: u32, videoLatencyUs: u32, droppedVideoFrames: u32)
    | Disconnect(reason: u16, message: seq<u8>)
    | ClockSyncComplete(deviceSend: u64, hostReceived: u64, hostSent: u64, deviceReceive: u64)

  datatype Payload =
    | Hello(hello: ClientHello)
    | Config(config: ServerConfig)
    | Video(video: VideoFrame)
    | Input(batch: InputBatch)
    | Command(control: Control)

  datatype FrameHeader = FrameHeader(flags: u32, sequence: u32, messageType: u16)

  datatype Frame = Frame(header: FrameHeader, payload: Payload)

  /** The kinds of the parse errors; the program's message texts name the same cases. */
  datatype ParseError =
    | TruncatedHeader | WrongMagic | UnsupportedVersion | UnknownType | UnknownFlag | InvalidPayloadLength
    | InvalidLayout | UnknownOpcode | InvalidValue

  // Validity.

  predicate ValidRotation(value: u16) {
    value == 0 || value == 90 || value == 180 || value == 270
  }

  predicate ValidHello(p: ClientHello) {
    && p.capabilities <= 0xFF
    && p.displayWidth > 0 && p.displayHeight > 0 && ValidRotation(p.rotationDegrees)
    && p.maxTouchContacts <= 10 && p.maxPenPressure != 0 && p.videoCodecMask % 2 == 1
    && p.maxVideoWidth > 0 && p.maxVideoHeight > 0 && |p.deviceName| <= 64 && |p.osName| <= 32
    && Utf8.WellFormed(p.deviceName) && Utf8.WellFormed(p.osName)
  }

  predicate ValidConfig(p: ServerConfig) {
    && p.sessionId != 0 && p.videoWidth > 0 && p.videoHeight > 0 && 1 <= p.videoFps <= 60
    && 20 <= p.videoBitrateMbps <= 120 && p.contentWidth != 0 && p.contentHeight != 0
    && p.configFlags <= 1
  }

  predicate ValidVideo(p: VideoFrame) {
    0 < |p.accessUnit| <= MAX_PAYLOAD - 20
  }

  predicate ValidSample(s: InputSample) {
    && s.pointerId != 0 && 1 <= s.tool <= 3 && s.contactFlags <= 0x0F && s.buttons <= 0x0007
    && -9000 <= s.tiltX <= 9000 && -9000 <= s.tiltY <= 9000
  }

  predicate ValidInput(p: InputBatch) {
    && 0 < |p.samples| <= MAX_SAMPLES
    && (forall i | 0 <= i < |p.samples| :: ValidSample(p.samples[i]))
    && (forall i, j | 0 <= i < j < |p.samples| :: p.samples[i].timestampDeltaUs <= p.samples[j].timestampDeltaUs)
  }

  predicate ValidControl(c: Control) {
    match c
    case OrientationChanged(rotation) => ValidRotation(rotation)
    case CapabilityChanged(capabilities) => capabilities <= 0xFF
    case Disconnect(_, message) => |message| <= 128 && Utf8.WellFormed(message)
    case _ => true
  }

  predicate ValidPayload(p: Payload) {
    match p
    case Hello(hello) => ValidHello(hello)
    case Config(config) => ValidConfig(config)
    case Video(video) => ValidVideo(video)
    case Input(batch) => ValidInput(batch)
    case Command(control) => ValidControl(control)
  }

  function TypeOf(p: Payload): u16 {
    match p
    case Hello(_) => CLIENT_HELLO
    case Config(_) => SERVER_CONFIG
    case Video(_) => VIDEO_FRAME
    case Input(_) => INPUT_BATCH
    case Command(_) => CONTROL
  }

  predicate AllowedFlags(messageType: u16, flags: u32) {
    if messageType == VIDEO_FRAME then flags <= 1 else flags == 0
  }

  /** Exactly the frames the encoder accepts. */
  predicate Encodable(f: Frame) {
    && ValidPayload(f.payload) && f.header.messageType == TypeOf(f.payload)
    && AllowedFlags(f.header.messageType, f.header.flags)
  }

  // Layout: the byte widths of the numbers, in order, and the raw tails.

  const HEADER: seq<nat> := [4, 2, 2, 4, 4, 4]
  const HELLO: seq<nat> := [4, 2, 2, 2, 2, 2, 2, 4, 4, 2, 2]
  const CONFIG: seq<nat> := [8, 4, 2, 2, 2, 2, 4, 4, 4, 4, 4]
  const VIDEO: seq<nat> := [8, 8, 4]
  const BATCH: seq<nat> := [8, 2, 2]
  const SAMPLE: seq<nat> := [4, 2, 1, 1, 2, 2, 2, 2, 2, 2, 2]
  const ENVELOPE: seq<nat> := [2, 2]

  lemma Widths()
    ensures Sum(HEADER) == 20 && Sum(HELLO) == 28 && Sum(CONFIG) == 40 && Sum(VIDEO) == 20
    ensures Sum(BATCH) == 12 && Sum(SAMPLE) == 22 && Sum(ENVELOPE) == 4
  {
  }

  function HelloNumbers(p: ClientHello): seq<nat>
    requires |p.deviceName| < 0x1_0000 && |p.osName| < 0x1_0000
  {
    [p.capabilities, p.displayWidth, p.displayHeight, p.rotationDegrees, p.maxTouchContacts, p.maxPenPressure,
     p.videoCodecMask, p.maxVideoWidth, p.maxVideoHeight, |p.deviceName|, |p.osName|]
  }

  function ConfigNumbers(p: ServerConfig): seq<nat> {
    [p.sessionId, p.displayId, p.videoWidth, p.videoHeight, p.videoFps, p.videoBitrateMbps,
     p.contentLeft, p.contentTop, p.contentWidth, p.contentHeight, p.configFlags]
  }

  function VideoNumbers(p: VideoFrame): seq<nat> {
    [p.captureTimestampNs, p.presentationTimestampNs, |p.accessUnit|]
  }

  function BatchNumbers(p: InputBatch): seq<nat> {
    [p.batchTimestampNs, |p.samples|, 0]
  }

  function SampleNumbers(s: InputSample): seq<nat> {
    [s.timestampDeltaUs, s.pointerId, s.tool, s.contactFlags, s.x, s.y, s.pressure,
     Unsigned(s.tiltX), Unsigned(s.tiltY), s.distance, s.buttons]
  }

  function SampleBytes(samples: seq<InputSample>): (b: seq<u8>)
    ensures |b| == 22 * |samples|
  {
    Widths();
    if samples == [] then [] else Pack(SampleNumbers(samples[0]), SAMPLE) + SampleBytes(samples[1..])
  }

  function Opcode(c: Control): u16 {
    match c
    case ClockSyncRequest(_) => 1
    case ClockSyncResponse(_, _, _) => 2
    case RequestIdr => 3
    case OrientationChanged(_) => 4
    case CapabilityChanged(_) => 5
    case Telemetry(_, _, _) => 6
    case Disconnect(_, _) => 7
    case ClockSyncComplete(_, _, _, _) => 8
  }

  function ControlBody(c: Control): seq<u8> {
    match c
    case ClockSyncRequest(t1) => Pack([t1], [8])
    case ClockSyncResponse(t1, t2, t3) => Pack([t1, t2, t3], [8, 8, 8])
    case RequestIdr => []
    case OrientationChanged(rotation) => Pack([rotation, 0], [2, 2])
    case CapabilityChanged(capabilities) => Pack([capabilities], [4])
    case Telemetry(rtt, latency, dropped) => Pack([rtt, latency, dropped], [4, 4, 4])
    case Disconnect(reason, message) => Pack([reason, |message|], [2, 2]) + message
    case ClockSyncComplete(t1, t2, t3, t4) => Pack([t1, t2, t3, t4], [8, 8, 8, 8])
  }

  function PayloadBytes(p: Payload): seq<u8>
    requires ValidPayload(p)
  {
    match p
    case Hello(hello) => Pack(HelloNumbers(hello), HELLO) + hello.deviceName + hello.osName
    case Config(config) => Pack(ConfigNumbers(config), CONFIG)
    case Video(video) => Pack(VideoNumbers(video), VIDEO) + video.accessUnit
    case Input(batch) => Pack(BatchNumbers(batch), BATCH) + SampleBytes(batch.samples)
    case Command(control) => Pack([Opcode(control), |ControlBody(control)|], ENVELOPE) + ControlBody(control)
  }

  function HeaderNumbers(h: FrameHeader, length: nat): seq<nat> {
    [MAGIC, VERSION, h.messageType, h.flags, h.sequence, length]
  }

  function FrameBytes(f: Frame): seq<u8>
    requires Encodable(f)
  {
    Pack(HeaderNumbers(f.header, |PayloadBytes(f.payload)|), HEADER) + PayloadBytes(f.payload)
  }

  /** The size limits the protocol documents for each payload. */
  lemma PayloadSizes(p: Payload)
    requires ValidPayload(p)
    ensures |PayloadBytes(p)| <= MAX_PAYLOAD
    ensures p.Hello? ==> |PayloadBytes(p)| <= 124
    ensures p.Config? ==> |PayloadBytes(p)| == 40
    ensures p.Input? ==> |PayloadBytes(p)| <= 1420
    ensures p.Command? ==> |ControlBody(p.control)| <= 132 && |PayloadBytes(p)| <= 136
  {
    Widths();
    if p.Command? {
      BodySize(p.control);
    }
  }

  lemma BodySize(c: Control)
    requires ValidControl(c)
    ensures |ControlBody(c)| <= 132
  {
    assert Sum([8]) == 8 && Sum([4]) == 4 && Sum([2, 2]) == 4 && Sum([4, 4, 4]) == 12;
    assert Sum([8, 8, 8]) == 24 && Sum([8, 8, 8, 8]) == 32;
  }

  // What a receiver makes of any bytes.

  function HelloOf(v: seq<nat>, device: seq<u8>, os: seq<u8>): ClientHello
    requires Fit(v, HELLO)
  {
    Pow256Values();
    ClientHello(v[0], v[1], v[2], v[3], v[4], v[5], v[6], v[7], v[8], device, os)
  }

  function ConfigOf(v: seq<nat>): ServerConfig
    requires Fit(v, CONFIG)
  {
    Pow256Values();
    ServerConfig(v[0], v[1], v[2], v[3], v[4], v[5], v[6], v[7], v[8], v[9], v[10])
  }

  function VideoOf(v: seq<nat>, accessUnit: seq<u8>): VideoFrame
    requires Fit(v, VIDEO)
  {
    Pow256Values();
    VideoFrame(v[0], v[1], accessUnit)
  }

  function SampleOf(v: seq<nat>): InputSample
    requires Fit(v, SAMPLE)
  {
    Pow256Values();
    InputSample(v[0], v[1], v[2], v[3], v[4], v[5], v[6], Signed(v[7]), Signed(v[8]), v[9], v[10])
  }

  /** The numbers at the front of b, known to fit. */
  function Front(widths: seq<nat>, b: seq<u8>): (v: seq<nat>)
    requires Sum(widths) <= |b|
    ensures v == Unpack(widths, b) && Fit(v, widths)
  {
    PackUnpack(widths, b);
    Unpack(widths, b)
  }

  function SamplesOf(b: seq<u8>, n: nat): (samples: seq<InputSample>)
    requires |b| == 22 * n
    ensures |samples| == n
    decreases n
  {
    assert Sum(SAMPLE) == 22 by {
      Widths();
    }
    if n == 0 then [] else [SampleOf(Front(SAMPLE, b))] + SamplesOf(b[22..], n - 1)
  }

  function ParseHello(b: seq<u8>): Result<Payload, ParseError> {
    Widths();
    if |b| < 28 then Err(InvalidLayout)
    else
      var v := Front(HELLO, b);
      var (device, os) := (v[9], v[10]);
      if device > 64 || os > 32 || |b| != 28 + device + os then Err(InvalidLayout)
      else
        var p := HelloOf(v, b[28..28 + device], b[28 + device..]);
        if ValidHello(p) then Ok(Hello(p)) else Err(InvalidValue)
  }

  function ParseConfig(b: seq<u8>): Result<Payload, ParseError> {
    Widths();
    if |b| != 40 then Err(InvalidLayout)
    else
      var p := ConfigOf(Front(CONFIG, b));
      if ValidConfig(p) then Ok(Config(p)) else Err(InvalidValue)
  }

  function ParseVideo(b: seq<u8>): Result<Payload, ParseError> {
    Widths();
    if |b| < 20 || Front(VIDEO, b)[2] != |b| - 20 then Err(InvalidLayout)
    else
      var p := VideoOf(Front(VIDEO, b), b[20..]);
      if ValidVideo(p) then Ok(Video(p)) else Err(InvalidValue)
  }

  function ParseInput(b: seq<u8>): Result<Payload, ParseError> {
    Widths();
    if |b| < 12 then Err(InvalidLayout)
    else
      var v := Front(BATCH, b);
      if v[2] != 0 || v[1] == 0 || v[1] > MAX_SAMPLES || |b| - 12 != 22 * v[1] then Err(InvalidLayout)
      else
        Pow256Values();
        var p := InputBatch(v[0], SamplesOf(b[12..], v[1]));
        if ValidInput(p) then Ok(Input(p)) else Err(InvalidValue)
  }

  /** The control message with this opcode and body, before its values are checked. */
  function ParseBody(opcode: nat, b: seq<u8>): Result<Control, ParseError> {
    Pow256Values();
    match opcode
    case 1 => if |b| != 8 then Err(InvalidLayout) else Ok(ClockSyncRequest(Front([8], b)[0]))
    case 2 =>
      if |b| != 24 then Err(InvalidLayout)
      else var v := Front([8, 8, 8], b); Ok(ClockSyncResponse(v[0], v[1], v[2]))
    case 3 => if |b| != 0 then Err(InvalidLayout) else Ok(RequestIdr)
    case 4 =>
      if |b| != 4 then Err(InvalidLayout)
      else
        var v := Front([2, 2], b);
        if v[1] != 0 then Err(InvalidLayout) else Ok(OrientationChanged(v[0]))
    case 5 => if |b| != 4 then Err(InvalidLayout) else Ok(CapabilityChanged(Front([4], b)[0]))
    case 6 =>
      if |b| != 12 then Err(InvalidLayout)
      else var v := Front([4, 4, 4], b); Ok(Telemetry(v[0], v[1], v[2]))
    case 7 =>
      if |b| < 4 then Err(InvalidLayout)
      else
        var v := Front([2, 2], b);
        if v[1] > 128 || v[1] != |b| - 4 then Err(InvalidLayout) else Ok(Disconnect(v[0], b[4..]))
    case 8 =>
      if |b| != 32 then Err(InvalidLayout)
      else var v := Front([8, 8, 8, 8], b); Ok(ClockSyncComplete(v[0], v[1], v[2], v[3]))
    case _ => Err(UnknownOpcode)
  }

  function ParseControl(b: seq<u8>): Result<Payload, ParseError> {
    Widths();
    if |b| < 4 || Front(ENVELOPE, b)[1] != |b| - 4 then Err(InvalidLayout)
    else
      match ParseBody(Front(ENVELOPE, b)[0], b[4..])
      case Err(e) => Err(e)
      case Ok(control) => if ValidControl(control) then Ok(Command(control)) else Err(InvalidValue)
  }

  function ParsePayload(messageType: u16, b: seq<u8>): Result<Payload, ParseError> {
    if messageType == CLIENT_HELLO then ParseHello(b)
    else if messageType == SERVER_CONFIG then ParseConfig(b)
    else if messageType == VIDEO_FRAME then ParseVideo(b)
    else if messageType == INPUT_BATCH then ParseInput(b)
    else ParseControl(b)
  }

  function ParseFrame(b: seq<u8>): Result<Frame, ParseError> {
    Widths();
    Pow256Values();
    if |b| < 20 then Err(TruncatedHeader)
    else
      var v := Front(HEADER, b);
      if v[0] != MAGIC then Err(WrongMagic)
      else if v[1] != VERSION then Err(UnsupportedVersion)
      else if v[2] < CLIENT_HELLO || v[2] > CONTROL then Err(UnknownType)
      else if !AllowedFlags(v[2], v[3]) then Err(UnknownFlag)
      else if v[5] > MAX_PAYLOAD || v[5] != |b| - 20 then Err(InvalidPayloadLength)
      else
        match ParsePayload(v[2], b[20..])
        case Err(e) => Err(e)
        case Ok(payload) => Ok(Frame(FrameHeader(v[3], v[4], v[2]), payload))
  }

  // The numbers of a message fit their widths, and determine it.

  lemma HelloNumbersFit(p: ClientHello)
    requires ValidHello(p)
    ensures Fit(HelloNumbers(p), HELLO)
  {
    Pow256Values();
  }

  lemma SampleOfNumbers(s: InputSample)
    ensures Fit(SampleNumbers(s), SAMPLE) && SampleOf(SampleNumbers(s)) == s
  {
  }

  lemma NumbersOfSample(v: seq<nat>)
    requires Fit(v, SAMPLE)
    ensures SampleNumbers(SampleOf(v)) == v
  {
    Pow256Values();
  }

  lemma HeaderNumbersFit(h: FrameHeader, length: u32)
    ensures Fit(HeaderNumbers(h, length), HEADER)
  {
    Pow256Values();
  }

  lemma NumbersRoundTrip(v: seq<nat>, widths: seq<nat>)
    requires Fit(v, widths)
    ensures Unpack(widths, Pack(v, widths)) == v
  {
    UnpackPack(v, widths, []);
    assert Pack(v, widths) + [] == Pack(v, widths);
  }

  lemma AllNumbers(widths: seq<nat>, b: seq<u8>)
    requires |b| == Sum(widths)
    ensures Pack(Unpack(widths, b), widths) == b
  {
    PackUnpack(widths, b);
    assert b[..Sum(widths)] == b;
  }

  lemma Cut(a: seq<u8>, x: seq<u8>, y: seq<u8>)
    ensures a + x + y == a + (x + y)
    ensures (a + x)[|a|..] == x
    ensures (a + x + y)[|a|..|a| + |x|] == x && (a + x + y)[|a| + |x|..] == y
  {
  }

  // Encoding and parsing are inverse to each other.

  lemma SampleFront(s: InputSample, rest: seq<u8>)
    ensures var b := Pack(SampleNumbers(s), SAMPLE) + rest;
            |b| == 22 + |rest| && Sum(SAMPLE) == 22 && SampleOf(Front(SAMPLE, b)) == s && b[22..] == rest
  {
    Widths();
    SampleOfNumbers(s);
    UnpackPack(SampleNumbers(s), SAMPLE, rest);
  }

  lemma {:induction false} SamplesRoundTrip(samples: seq<InputSample>)
    ensures SamplesOf(SampleBytes(samples), |samples|) == samples
  {
    hide Pack, Unpack, Sum;
    if samples != [] {
      SampleFront(samples[0], SampleBytes(samples[1..]));
      SamplesRoundTrip(samples[1..]);
    }
  }

  lemma {:induction false} SampleBytesRoundTrip(b: seq<u8>, n: nat)
    requires |b| == 22 * n
    ensures SampleBytes(SamplesOf(b, n)) == b
  {
    hide Pack, Unpack, Sum;
    if n > 0 {
      assert Sum(SAMPLE) == 22 by {
        Widths();
      }
      PackUnpack(SAMPLE, b);
      NumbersOfSample(Front(SAMPLE, b));
      SampleBytesRoundTrip(b[22..], n - 1);
      assert SamplesOf(b, n) == [SampleOf(Front(SAMPLE, b))] + SamplesOf(b[22..], n - 1);
      assert b == b[..22] + b[22..];
    }
  }

  lemma HelloFront(p: ClientHello)
    requires ValidHello(p)
    ensures var b := PayloadBytes(Hello(p));
            && |b| == 28 + |p.deviceName| + |p.osName|
            && Sum(HELLO) <= |b| && Front(HELLO, b) == HelloNumbers(p)
  {
    hide Pack, Unpack, Sum;
    Widths();
    HelloNumbersFit(p);
    Cut(Pack(HelloNumbers(p), HELLO), p.deviceName, p.osName);
    UnpackPack(HelloNumbers(p), HELLO, p.deviceName + p.osName);
  }

  lemma HelloRoundTrip(p: ClientHello)
    requires ValidHello(p)
    ensures ParseHello(PayloadBytes(Hello(p))) == Ok(Hello(p))
  {
    hide Pack, Unpack, Sum;
    HelloFront(p);
    Cut(Pack(HelloNumbers(p), HELLO), p.deviceName, p.osName);
  }

  lemma VideoRoundTrip(p: VideoFrame)
    requires ValidVideo(p)
    ensures ParseVideo(PayloadBytes(Video(p))) == Ok(Video(p))
  {
    hide Pack, Unpack, Sum;
    assert Sum(VIDEO) == 20 by {
      Widths();
    }
    assert Fit(VideoNumbers(p), VIDEO) by {
      Pow256Values();
    }
    UnpackPack(VideoNumbers(p), VIDEO, p.accessUnit);
    Cut(Pack(VideoNumbers(p), VIDEO), p.accessUnit, []);
  }

  lemma InputRoundTrip(p: InputBatch)
    requires ValidInput(p)
    ensures ParseInput(PayloadBytes(Input(p))) == Ok(Input(p))
  {
    hide Pack, Unpack, Sum;
    assert Sum(BATCH) == 12 by {
      Widths();
    }
    assert Fit(BatchNumbers(p), BATCH) by {
      Pow256Values();
    }
    UnpackPack(BatchNumbers(p), BATCH, SampleBytes(p.samples));
    Cut(Pack(BatchNumbers(p), BATCH), SampleBytes(p.samples), []);
    SamplesRoundTrip(p.samples);
  }

  lemma TimestampsFit(t1: u64, t2: u64, t3: u64, t4: u64)
    ensures Fit([t1], [8]) && Fit([t1, t2, t3], [8, 8, 8]) && Fit([t1, t2, t3, t4], [8, 8, 8, 8])
  {
    Pow256Values();
  }

  lemma SmallNumbersFit(a: u16, b: u16, c: u32, d: u32, e: u32)
    ensures Fit([a, b], [2, 2]) && Fit([c], [4]) && Fit([c, d, e], [4, 4, 4])
  {
    Pow256Values();
  }

  lemma ClockBodyRoundTrip(c: Control)
    requires c.ClockSyncRequest? || c.ClockSyncResponse? || c.ClockSyncComplete?
    ensures ParseBody(Opcode(c), ControlBody(c)) == Ok(c)
  {
    match c
    case ClockSyncRequest(t1) =>
      TimestampsFit(t1, 0, 0, 0);
      NumbersRoundTrip([t1], [8]);
    case ClockSyncResponse(t1, t2, t3) =>
      TimestampsFit(t1, t2, t3, 0);
      NumbersRoundTrip([t1, t2, t3], [8, 8, 8]);
    case ClockSyncComplete(t1, t2, t3, t4) =>
      TimestampsFit(t1, t2, t3, t4);
      NumbersRoundTrip([t1, t2, t3, t4], [8, 8, 8, 8]);
  }

  lemma BodyRoundTrip(c: Control)
    requires ValidControl(c)
    ensures ParseBody(Opcode(c), ControlBody(c)) == Ok(c)
  {
    hide Pack, Unpack;
    match c
    case RequestIdr =>
    case OrientationChanged(rotation) =>
      SmallNumbersFit(rotation, 0, 0, 0, 0);
      NumbersRoundTrip([rotation, 0], [2, 2]);
    case CapabilityChanged(capabilities) =>
      SmallNumbersFit(0, 0, capabilities, 0, 0);
      NumbersRoundTrip([capabilities], [4]);
    case Telemetry(rtt, latency, dropped) =>
      SmallNumbersFit(0, 0, rtt, latency, dropped);
      NumbersRoundTrip([rtt, latency, dropped], [4, 4, 4]);
    case Disconnect(reason, message) =>
      SmallNumbersFit(reason, |message|, 0, 0, 0);
      UnpackPack([reason, |message|], [2, 2], message);
    case _ => ClockBodyRoundTrip(c);
  }

  lemma ControlRoundTrip(c: Control)
    requires ValidControl(c)
    ensures ParseControl(PayloadBytes(Command(c))) == Ok(Command(c))
  {
    hide Pack, Unpack, Sum;
    var body := ControlBody(c);
    PayloadSizes(Command(c));
    assert Fit([Opcode(c), |body|], ENVELOPE) by {
      Pow256Values();
    }
    assert Sum(ENVELOPE) == 4 by {
      Widths();
    }
    UnpackPack([Opcode(c), |body|], ENVELOPE, body);
    Cut(Pack([Opcode(c), |body|], ENVELOPE), body, []);
    BodyRoundTrip(c);
  }

  lemma PayloadRoundTrip(p: Payload)
    requires ValidPayload(p)
    ensures ParsePayload(TypeOf(p), PayloadBytes(p)) == Ok(p)
  {
    hide Pack, Unpack, Sum;
    match p
    case Hello(hello) => HelloRoundTrip(hello);
    case Config(config) =>
      Widths();
      NumbersRoundTrip(ConfigNumbers(config), CONFIG);
    case Video(video) => VideoRoundTrip(video);
    case Input(batch) => InputRoundTrip(batch);
    case Command(control) => ControlRoundTrip(control);
  }

  /** Parsing what was encoded gives the frame back, for every encodable frame. */
  lemma DecodeEncode(f: Frame)
    requires Encodable(f)
    ensures ParseFrame(FrameBytes(f)) == Ok(f)
  {
    hide Pack, Unpack, Sum;
    var body := PayloadBytes(f.payload);
    PayloadSizes(f.payload);
    HeaderNumbersFit(f.header, |body|);
    assert Sum(HEADER) == 20 by {
      Widths();
    }
    UnpackPack(HeaderNumbers(f.header, |body|), HEADER, body);
    Cut(Pack(HeaderNumbers(f.header, |body|), HEADER), body, []);
    PayloadRoundTrip(f.payload);
  }

  ghost predicate Recovers(messageType: u16, b: seq<u8>, p: Payload) {
    ValidPayload(p) && TypeOf(p) == messageType && PayloadBytes(p) == b
  }

  lemma NumbersOfHello(b: seq<u8>)
    requires ParseHello(b).Ok?
    ensures Sum(HELLO) == 28 && HelloNumbers(ParseHello(b).value.hello) == Front(HELLO, b)
  {
    hide Pack, Unpack, Sum;
    assert Sum(HELLO) == 28 by {
      Widths();
    }
  }

  lemma HelloBytesRoundTrip(b: seq<u8>)
    requires ParseHello(b).Ok?
    ensures Recovers(CLIENT_HELLO, b, ParseHello(b).value)
  {
    hide Pack, Unpack, Sum;
    assert Sum(HELLO) == 28 by {
      Widths();
    }
    PackUnpack(HELLO, b);
    NumbersOfHello(b);
  }

  lemma Listed(v: seq<nat>)
    ensures |v| == 3 ==> v == [v[0], v[1], v[2]]
    ensures |v| == 4 ==> v == [v[0], v[1], v[2], v[3]]
  {
  }

  lemma ThreeOrFourNumbers(widths: seq<nat>, b: seq<u8>)
    requires |b| == Sum(widths)
    ensures var v := Front(widths, b);
            && (|widths| == 3 ==> Pack([v[0], v[1], v[2]], widths) == b)
            && (|widths| == 4 ==> Pack([v[0], v[1], v[2], v[3]], widths) == b)
  {
    AllNumbers(widths, b);
    Listed(Front(widths, b));
  }

  lemma BodyBytesRoundTrip(opcode: nat, b: seq<u8>)
    requires ParseBody(opcode, b).Ok?
    ensures Opcode(ParseBody(opcode, b).value) == opcode && ControlBody(ParseBody(opcode, b).value) == b
  {
    match opcode
    case 1 => AllNumbers([8], b);
    case 2 => ThreeOrFourNumbers([8, 8, 8], b);
    case 4 =>
      AllNumbers([2, 2], b);
      assert Front([2, 2], b) == [Front([2, 2], b)[0], 0];
    case 5 => AllNumbers([4], b);
    case 6 => ThreeOrFourNumbers([4, 4, 4], b);
    case 7 =>
      PackUnpack([2, 2], b);
      assert b == b[..4] + b[4..];
      assert Front([2, 2], b) == [Front([2, 2], b)[0], |b[4..]|];
    case 8 => ThreeOrFourNumbers([8, 8, 8, 8], b);
    case _ =>
  }

  lemma ConfigBytesRoundTrip(b: seq<u8>)
    requires ParseConfig(b).Ok?
    ensures Recovers(SERVER_CONFIG, b, ParseConfig(b).value)
  {
    hide Pack, Unpack, Sum;
    assert Sum(CONFIG) == 40 by {
      Widths();
    }
    AllNumbers(CONFIG, b);
    assert ConfigNumbers(ParseConfig(b).value.config) == Front(CONFIG, b);
  }

  lemma NumbersOfBatch(b: seq<u8>)
    requires ParseInput(b).Ok?
    ensures Sum(BATCH) == 12 && BatchNumbers(ParseInput(b).value.batch) == Front(BATCH, b)
    ensures |b[12..]| == 22 * Front(BATCH, b)[1]
    ensures ParseInput(b).value.batch.samples == SamplesOf(b[12..], Front(BATCH, b)[1])
  {
    hide Pack, Unpack, Sum;
    assert Sum(BATCH) == 12 by {
      Widths();
    }
  }

  lemma InputBytesRoundTrip(b: seq<u8>)
    requires ParseInput(b).Ok?
    ensures Recovers(INPUT_BATCH, b, ParseInput(b).value)
  {
    hide Pack, Unpack, Sum;
    NumbersOfBatch(b);
    PackUnpack(BATCH, b);
    assert b == b[..12] + b[12..];
    SampleBytesRoundTrip(b[12..], Front(BATCH, b)[1]);
  }

  lemma ControlBytesRoundTrip(b: seq<u8>)
    requires ParseControl(b).Ok?
    ensures Recovers(CONTROL, b, ParseControl(b).value)
  {
    hide Pack, Unpack, Sum;
    assert Sum(ENVELOPE) == 4 by {
      Widths();
    }
    PackUnpack(ENVELOPE, b);
    var v := Front(ENVELOPE, b);
    BodyBytesRoundTrip(v[0], b[4..]);
    assert v == [v[0], |b[4..]|];
    assert b == b[..4] + b[4..];
  }

  lemma VideoBytesRoundTrip(b: seq<u8>)
    requires ParseVideo(b).Ok?
    ensures Recovers(VIDEO_FRAME, b, ParseVideo(b).value)
  {
    hide Pack, Unpack, Sum;
    assert Sum(VIDEO) == 20 by {
      Widths();
    }
    PackUnpack(VIDEO, b);
    assert VideoNumbers(ParseVideo(b).value.video) == Front(VIDEO, b);
    assert b == b[..20] + b[20..];
  }

  lemma PayloadBytesRoundTrip(messageType: u16, b: seq<u8>)
    requires CLIENT_HELLO <= messageType <= CONTROL && ParsePayload(messageType, b).Ok?
    ensures Recovers(messageType, b, ParsePayload(messageType, b).value)
  {
    if messageType == CLIENT_HELLO {
      HelloBytesRoundTrip(b);
    } else if messageType == SERVER_CONFIG {
      ConfigBytesRoundTrip(b);
    } else if messageType == VIDEO_FRAME {
      VideoBytesRoundTrip(b);
    } else if messageType == INPUT_BATCH {
      InputBytesRoundTrip(b);
    } else {
      ControlBytesRoundTrip(b);
    }
  }

  /** Encoding what was parsed gives the bytes back, for every byte string the
      parser accepts; and what it accepts is encodable. */
  lemma EncodeDecode(b: seq<u8>)
    requires ParseFrame(b).Ok?
    ensures Encodable(ParseFrame(b).value) && FrameBytes(ParseFrame(b).value) == b
  {
    hide Pack, Unpack, Sum;
    assert Sum(HEADER) == 20 by {
      Widths();
    }
    PackUnpack(HEADER, b);
    var v := Front(HEADER, b);
    PayloadBytesRoundTrip(v[2], b[20..]);
    assert HeaderNumbers(ParseFrame(b).value.header, |b[20..]|) == v;
    assert b == b[..20] + b[20..];
  }
}
