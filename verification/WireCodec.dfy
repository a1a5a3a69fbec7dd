/** The encoder and decoder of the protocol: a writer that appends to a buffer,
    a reader that moves a cursor, and the validators with their loops. */
module WireCodec {
  import opened Wrappers
  import opened Bytes
  import opened WireFormat
  import Utf8

  datatype EncodeError = InvalidPayload | HeaderMismatch

  class Writer {
    var bytes: seq<u8>

    constructor ()
      ensures bytes == []
    {
      bytes := [];
    }

    /** u8, u16, u32 or u64, by width: the low bytes, least significant first. */
    method Number(value: nat, width: nat)
      modifies this
      ensures bytes == old(bytes) + Le(value, width)
    {
      var scale: nat := 1;
      for i := 0 to width
        invariant scale == Pow256(i)
        invariant bytes == old(bytes) + Le(value, width)[..i]
      {
        LeSplit(value, i, width);
        bytes := bytes + [value / scale % 256];
        scale := scale * 256;
      }
    }

    /** A chain of writes. */
    method Numbers(values: seq<nat>, widths: seq<nat>)
      requires |values| == |widths|
      modifies this
      ensures bytes == old(bytes) + Pack(values, widths)
    {
      for i := 0 to |values|
        invariant bytes + Pack(values[i..], widths[i..]) == old(bytes) + Pack(values, widths)
      {
        Number(values[i], widths[i]);
        assert values[i..][1..] == values[i + 1..] && widths[i..][1..] == widths[i + 1..];
      }
    }

    method Append(data: seq<u8>)
      modifies this
      ensures bytes == old(bytes) + data
    {
      for i := 0 to |data|
        invariant bytes == old(bytes) + data[..i]
      {
        bytes := bytes + [data[i]];
      }
    }
  }

  class Reader {
    const data: seq<u8>
    var current: nat

    ghost predicate Valid()
      reads this
    {
      current <= |data|
    }

    ghost function Rest(): seq<u8>
      requires Valid()
      reads this
    {
      data[current..]
    }

    constructor (bytes: seq<u8>)
      ensures Valid() && data == bytes && current == 0
    {
      data, current := bytes, 0;
    }

    /** u8, u16, u32 or u64, by width.  A short read consumes what is left. */
    method Number(width: nat) returns (ok: bool, value: nat)
      requires Valid()
      modifies this
      ensures Valid() && (ok <==> width <= |old(Rest())|)
      ensures ok ==> value == UnLe(old(Rest())[..width]) && Rest() == old(Rest())[width..]
      ensures !ok ==> Rest() == []
    {
      value := 0;
      var scale: nat := 1;
      ghost var rest := Rest();
      for i := 0 to width
        invariant Valid() && i <= |rest| && Rest() == rest[i..]
        invariant scale == Pow256(i) && value == UnLe(rest[..i])
      {
        if current == |data| {
          return false, 0;
        }
        var b := data[current];
        current := current + 1;
        UnLeSnoc(rest[..i], b);
        assert rest[..i + 1] == rest[..i] + [b];
        value := value + b * scale;
        scale := scale * 256;
      }
      ok := true;
    }

    /** A chain of reads, ended by the first that fails. */
    method Numbers(widths: seq<nat>) returns (ok: bool, values: seq<nat>)
      requires Valid()
      modifies this
      ensures Valid() && (ok <==> Sum(widths) <= |old(Rest())|)
      ensures ok ==> values == Front(widths, old(Rest()))
      ensures ok ==> Rest() == old(Rest())[Sum(widths)..]
    {
      ghost var rest := Rest();
      values := [];
      for i := 0 to |widths|
        invariant Valid() && Sum(widths) == |rest| - |Rest()| + Sum(widths[i..])
        invariant |Rest()| <= |rest| && Rest() == rest[|rest| - |Rest()|..]
        invariant Sum(widths) <= |rest| ==> Unpack(widths, rest) == values + Unpack(widths[i..], Rest())
      {
        ghost var before := Rest();
        var fine, value := Number(widths[i]);
        assert widths[i..][1..] == widths[i + 1..];
        if !fine {
          return false, [];
        }
        values := values + [value];
      }
      PackUnpack(widths, rest);
      ok := true;
    }

    method Take(count: nat) returns (ok: bool, block: seq<u8>)
      requires Valid()
      modifies this
      ensures Valid() && (ok <==> count <= |old(Rest())|)
      ensures ok ==> block == old(Rest())[..count] && Rest() == old(Rest())[count..]
      ensures !ok ==> Rest() == old(Rest())
    {
      if |data| - current < count {
        return false, [];
      }
      block := data[current..current + count];
      current := current + count;
      ok := true;
    }

    method Remaining() returns (count: nat)
      requires Valid()
      ensures count == |Rest()|
    {
      count := |data| - current;
    }
  }

  // Validators.

  method CheckHello(p: ClientHello) returns (ok: bool)
    ensures ok <==> ValidHello(p)
  {
    if p.capabilities / 0x100 != 0 || p.displayWidth == 0 || p.displayHeight == 0 || !ValidRotation(p.rotationDegrees) {
      return false;
    }
    if p.maxTouchContacts > 10 || p.maxPenPressure == 0 || p.videoCodecMask % 2 == 0 {
      return false;
    }
    if p.maxVideoWidth == 0 || p.maxVideoHeight == 0 || |p.deviceName| > 64 || |p.osName| > 32 {
      return false;
    }
    ok := Utf8.Validate(p.deviceName);
    if ok {
      ok := Utf8.Validate(p.osName);
    }
  }

  method CheckInput(p: InputBatch) returns (ok: bool)
    ensures ok <==> ValidInput(p)
  {
    if p.samples == [] || |p.samples| > MAX_SAMPLES {
      return false;
    }
    var previous: u32 := 0;
    for i := 0 to |p.samples|
      invariant forall k | 0 <= k < i :: ValidSample(p.samples[k])
      invariant forall j, k | 0 <= j < k < i :: p.samples[j].timestampDeltaUs <= p.samples[k].timestampDeltaUs
      invariant i > 0 ==> previous == p.samples[i - 1].timestampDeltaUs
    {
      var s := p.samples[i];
      if s.pointerId == 0 || !(1 <= s.tool <= 3) || s.contactFlags / 0x10 != 0 || s.buttons / 0x08 != 0 {
        assert !ValidSample(p.samples[i]);
        return false;
      }
      if !(-9000 <= s.tiltX <= 9000 && -9000 <= s.tiltY <= 9000) {
        assert !ValidSample(p.samples[i]);
        return false;
      }
      if i != 0 && s.timestampDeltaUs < previous {
        assert p.samples[i - 1].timestampDeltaUs > p.samples[i].timestampDeltaUs;
        return false;
      }
      previous := s.timestampDeltaUs;
    }
    ok := true;
  }

  method CheckControl(c: Control) returns (ok: bool)
    ensures ok <==> ValidControl(c)
  {
    match c
    case OrientationChanged(rotation) => ok := ValidRotation(rotation);
    case CapabilityChanged(capabilities) => ok := capabilities / 0x100 == 0;
    case Disconnect(_, message) =>
      ok := |message| <= 128;
      if ok {
        ok := Utf8.Validate(message);
      }
    case _ => ok := true;
  }

  // Encoding.

  method EncodeBody(c: Control) returns (body: seq<u8>)
    ensures body == ControlBody(c)
  {
    hide Pack, Sum;
    var w := new Writer();
    match c {
      case ClockSyncRequest(t1) => w.Numbers([t1], [8]);
      case ClockSyncResponse(t1, t2, t3) => w.Numbers([t1, t2, t3], [8, 8, 8]);
      case RequestIdr =>
      case OrientationChanged(rotation) => w.Numbers([rotation, 0], [2, 2]);
      case CapabilityChanged(capabilities) => w.Numbers([capabilities], [4]);
      case Telemetry(rtt, latency, dropped) => w.Numbers([rtt, latency, dropped], [4, 4, 4]);
      case Disconnect(reason, message) =>
        w.Numbers([reason, |message|], [2, 2]);
        w.Append(message);
      case ClockSyncComplete(t1, t2, t3, t4) => w.Numbers([t1, t2, t3, t4], [8, 8, 8, 8]);
    }
    body := w.bytes;
  }

  method EncodeHello(p: ClientHello) returns (ok: bool, bytes: seq<u8>)
    ensures ok <==> ValidHello(p)
    ensures ok ==> bytes == PayloadBytes(Hello(p))
  {
    hide Pack, Sum;
    bytes := [];
    ok := CheckHello(p);
    if ok {
      var w := new Writer();
      w.Numbers(HelloNumbers(p), HELLO);
      w.Append(p.deviceName);
      w.Append(p.osName);
      bytes := w.bytes;
    }
  }

  method EncodeVideo(p: VideoFrame) returns (ok: bool, bytes: seq<u8>)
    ensures ok <==> ValidVideo(p)
    ensures ok ==> bytes == PayloadBytes(Video(p))
  {
    hide Pack, Sum;
    ok, bytes := ValidVideo(p), [];
    if ok {
      var w := new Writer();
      w.Numbers(VideoNumbers(p), VIDEO);
      w.Append(p.accessUnit);
      bytes := w.bytes;
    }
  }

  method EncodeInput(p: InputBatch) returns (ok: bool, bytes: seq<u8>)
    ensures ok <==> ValidInput(p)
    ensures ok ==> bytes == PayloadBytes(Input(p))
  {
    hide Pack, Sum;
    bytes := [];
    ok := CheckInput(p);
    if ok {
      var w := new Writer();
      w.Numbers(BatchNumbers(p), BATCH);
      WriteSamples(w, p.samples);
      bytes := w.bytes;
    }
  }

  method WriteSamples(w: Writer, samples: seq<InputSample>)
    modifies w
    ensures w.bytes == old(w.bytes) + SampleBytes(samples)
  {
    hide Pack, Sum;
    for i := 0 to |samples|
      invariant w.bytes + SampleBytes(samples[i..]) == old(w.bytes) + SampleBytes(samples)
    {
      ghost var before := w.bytes;
      w.Numbers(SampleNumbers(samples[i]), SAMPLE);
      SampleStep(before, samples[i..]);
      assert samples[i..][1..] == samples[i + 1..];
    }
  }

  lemma SampleStep(before: seq<u8>, samples: seq<InputSample>)
    requires samples != []
    ensures before + SampleBytes(samples)
         == before + Pack(SampleNumbers(samples[0]), SAMPLE) + SampleBytes(samples[1..])
  {
    hide Pack, Sum;
  }

  method EncodeControl(c: Control) returns (ok: bool, bytes: seq<u8>)
    ensures ok <==> ValidControl(c)
    ensures ok ==> bytes == PayloadBytes(Command(c))
  {
    hide Pack, Sum;
    bytes := [];
    ok := CheckControl(c);
    if ok {
      var body := EncodeBody(c);
      var w := new Writer();
      w.Numbers([Opcode(c), |body|], ENVELOPE);
      w.Append(body);
      bytes := w.bytes;
    }
  }

  method EncodePayload(p: Payload) returns (ok: bool, messageType: u16, bytes: seq<u8>)
    ensures ok <==> ValidPayload(p)
    ensures messageType == TypeOf(p)
    ensures ok ==> bytes == PayloadBytes(p)
  {
    hide Pack, Sum;
    match p
    case Hello(hello) =>
      messageType := CLIENT_HELLO;
      ok, bytes := EncodeHello(hello);
    case Config(config) =>
      messageType := SERVER_CONFIG;
      ok := ValidConfig(config);
      var w := new Writer();
      w.Numbers(ConfigNumbers(config), CONFIG);
      bytes := w.bytes;
    case Video(video) =>
      messageType := VIDEO_FRAME;
      ok, bytes := EncodeVideo(video);
    case Input(batch) =>
      messageType := INPUT_BATCH;
      ok, bytes := EncodeInput(batch);
    case Command(control) =>
      messageType := CONTROL;
      ok, bytes := EncodeControl(control);
  }

  /** `encodeFrame`.  Its test for an oversized payload can never fail: see
      PayloadSizes. */
  method EncodeFrame(frame: Frame) returns (r: Result<seq<u8>, EncodeError>)
    ensures r.Ok? <==> Encodable(frame)
    ensures r.Ok? ==> r.value == FrameBytes(frame)
    ensures r.Err? ==> r.error == if ValidPayload(frame.payload) then HeaderMismatch else InvalidPayload
  {
    hide Pack, Sum;
    var ok, messageType, payload := EncodePayload(frame.payload);
    if !ok {
      return Err(InvalidPayload);
    }
    if frame.header.messageType != messageType || !AllowedFlags(frame.header.messageType, frame.header.flags) {
      return Err(HeaderMismatch);
    }
    PayloadSizes(frame.payload);
    var w := new Writer();
    w.Numbers(HeaderNumbers(frame.header, |payload|), HEADER);
    w.Append(payload);
    r := Ok(w.bytes);
  }

  // Decoding.

  lemma SplitTail(b: seq<u8>, i: nat, n: nat)
    requires i + n <= |b|
    ensures b[i..][..n] == b[i..i + n] && b[i..][n..] == b[i + n..]
  {
  }

  /** The two strings at the end of a ClientHello. */
  method ReadNames(reader: Reader, deviceBytes: nat, osBytes: nat) returns (ok: bool, device: seq<u8>, os: seq<u8>)
    requires reader.Valid()
    modifies reader
    ensures ok <==> |old(reader.Rest())| == deviceBytes + osBytes
    ensures ok ==> device == old(reader.Rest())[..deviceBytes] && os == old(reader.Rest())[deviceBytes..]
  {
    os := [];
    ok, device := reader.Take(deviceBytes);
    if ok {
      ok, os := reader.Take(osBytes);
      var left := reader.Remaining();
      ok := ok && left == 0;
    }
  }

  method DecodeHello(bytes: seq<u8>) returns (r: Result<Payload, ParseError>)
    ensures r == ParseHello(bytes)
  {
    hide Pack, Unpack, Sum;
    assert Sum(HELLO) == 28 by {
      Widths();
    }
    var reader := new Reader(bytes);
    var ok, v := reader.Numbers(HELLO);
    if !ok || v[9] > 64 || v[10] > 32 {
      return Err(InvalidLayout);
    }
    var device, os;
    ok, device, os := ReadNames(reader, v[9], v[10]);
    if !ok {
      return Err(InvalidLayout);
    }
    SplitTail(bytes, 28, v[9]);
    var p := HelloOf(v, device, os);
    var valid := CheckHello(p);
    r := if valid then Ok(Hello(p)) else Err(InvalidValue);
  }

  method DecodeConfig(bytes: seq<u8>) returns (r: Result<Payload, ParseError>)
    ensures r == ParseConfig(bytes)
  {
    hide Pack, Unpack, Sum;
    assert Sum(CONFIG) == 40 by {
      Widths();
    }
    var reader := new Reader(bytes);
    var ok, v := reader.Numbers(CONFIG);
    if |bytes| != 40 || !ok {
      return Err(InvalidLayout);
    }
    var p := ConfigOf(v);
    r := if ValidConfig(p) then Ok(Config(p)) else Err(InvalidValue);
  }

  method DecodeVideo(bytes: seq<u8>) returns (r: Result<Payload, ParseError>)
    ensures r == ParseVideo(bytes)
  {
    hide Pack, Unpack, Sum;
    assert Sum(VIDEO) == 20 by {
      Widths();
    }
    var reader := new Reader(bytes);
    var ok, v := reader.Numbers(VIDEO);
    var left := reader.Remaining();
    if !ok || v[2] != left {
      return Err(InvalidLayout);
    }
    var accessUnit;
    ok, accessUnit := reader.Take(v[2]);
    assert accessUnit == bytes[20..];
    var p := VideoOf(v, accessUnit);
    r := if ValidVideo(p) then Ok(Video(p)) else Err(InvalidValue);
  }

  method DecodeInput(bytes: seq<u8>) returns (r: Result<Payload, ParseError>)
    ensures r == ParseInput(bytes)
  {
    hide Pack, Unpack, Sum;
    assert Sum(BATCH) == 12 by {
      Widths();
    }
    var reader := new Reader(bytes);
    var ok, v := reader.Numbers(BATCH);
    var left := reader.Remaining();
    if !ok || v[2] != 0 || v[1] == 0 || v[1] > MAX_SAMPLES || left != v[1] * 22 {
      return Err(InvalidLayout);
    }
    var samples := ReadSamples(reader, v[1]);
    assert v[0] < 0x1_0000_0000_0000_0000 by {
      Pow256Values();
    }
    var p := InputBatch(v[0], samples);
    var valid := CheckInput(p);
    r := if valid then Ok(Input(p)) else Err(InvalidValue);
  }

  method ReadSamples(reader: Reader, count: nat) returns (samples: seq<InputSample>)
    requires reader.Valid() && |reader.Rest()| == 22 * count
    modifies reader
    ensures samples == SamplesOf(old(reader.Rest()), count)
  {
    hide Pack, Unpack, Sum;
    assert Sum(SAMPLE) == 22 by {
      Widths();
    }
    ghost var rest := reader.Rest();
    samples := [];
    for i := 0 to count
      invariant reader.Valid() && |reader.Rest()| == 22 * (count - i)
      invariant SamplesOf(rest, count) == samples + SamplesOf(reader.Rest(), count - i)
    {
      var ok, v := reader.Numbers(SAMPLE);
      samples := samples + [SampleOf(v)];
    }
  }

  method DecodeBody(opcode: nat, bytes: seq<u8>) returns (r: Result<Control, ParseError>)
    ensures r == ParseBody(opcode, bytes)
  {
    Pow256Values();
    var reader := new Reader(bytes);
    var ok, v;
    match opcode {
      case 1 =>
        ok, v := reader.Numbers([8]);
        r := if |bytes| != 8 then Err(InvalidLayout) else Ok(ClockSyncRequest(v[0]));
      case 2 =>
        ok, v := reader.Numbers([8, 8, 8]);
        r := if |bytes| != 24 then Err(InvalidLayout) else Ok(ClockSyncResponse(v[0], v[1], v[2]));
      case 3 => r := if |bytes| != 0 then Err(InvalidLayout) else Ok(RequestIdr);
      case 4 =>
        ok, v := reader.Numbers([2, 2]);
        r := if |bytes| != 4 || v[1] != 0 then Err(InvalidLayout) else Ok(OrientationChanged(v[0]));
      case 5 =>
        ok, v := reader.Numbers([4]);
        r := if |bytes| != 4 then Err(InvalidLayout) else Ok(CapabilityChanged(v[0]));
      case 6 =>
        ok, v := reader.Numbers([4, 4, 4]);
        r := if |bytes| != 12 then Err(InvalidLayout) else Ok(Telemetry(v[0], v[1], v[2]));
      case 7 =>
        ok, v := reader.Numbers([2, 2]);
        if !ok || v[1] > 128 || v[1] != |bytes| - 4 {
          return Err(InvalidLayout);
        }
        var message;
        ok, message := reader.Take(v[1]);
        assert message == bytes[4..];
        r := Ok(Disconnect(v[0], message));
      case 8 =>
        ok, v := reader.Numbers([8, 8, 8, 8]);
        r := if |bytes| != 32 then Err(InvalidLayout) else Ok(ClockSyncComplete(v[0], v[1], v[2], v[3]));
      case _ => r := Err(UnknownOpcode);
    }
  }

  method DecodeControl(bytes: seq<u8>) returns (r: Result<Payload, ParseError>)
    ensures r == ParseControl(bytes)
  {
    hide Pack, Unpack, Sum;
    assert Sum(ENVELOPE) == 4 by {
      Widths();
    }
    var reader := new Reader(bytes);
    var ok, v := reader.Numbers(ENVELOPE);
    var left := reader.Remaining();
    if !ok || v[1] != left {
      return Err(InvalidLayout);
    }
    var body;
    ok, body := reader.Take(left);
    assert body == bytes[4..];
    var control := DecodeBody(v[0], body);
    if control.Err? {
      return Err(control.error);
    }
    var valid := CheckControl(control.value);
    r := if valid then Ok(Command(control.value)) else Err(InvalidValue);
  }

  lemma HeaderRanges(v: seq<nat>)
    requires Fit(v, HEADER)
    ensures v[2] < 0x1_0000 && v[3] < 0x1_0000_0000 && v[4] < 0x1_0000_0000
  {
    Pow256Values();
  }

  /** `decodeFrame`. */
  method DecodeFrame(bytes: seq<u8>) returns (r: Result<Frame, ParseError>)
    ensures r == ParseFrame(bytes)
  {
    hide Pack, Unpack, Sum;
    assert Sum(HEADER) == 20 by {
      Widths();
    }
    var reader := new Reader(bytes);
    var ok, v := reader.Numbers(HEADER);
    if !ok {
      return Err(TruncatedHeader);
    }
    var left := reader.Remaining();
    HeaderRanges(v);
    if v[0] != MAGIC {
      return Err(WrongMagic);
    }
    if v[1] != VERSION {
      return Err(UnsupportedVersion);
    }
    if v[2] < CLIENT_HELLO || v[2] > CONTROL {
      return Err(UnknownType);
    }
    if !AllowedFlags(v[2], v[3]) {
      return Err(UnknownFlag);
    }
    if v[5] > MAX_PAYLOAD || v[5] != left {
      return Err(InvalidPayloadLength);
    }
    var payload := DecodePayload(v[2], bytes[20..]);
    if payload.Err? {
      return Err(payload.error);
    }
    r := Ok(Frame(FrameHeader(v[3], v[4], v[2]), payload.value));
  }

  method DecodePayload(messageType: u16, bytes: seq<u8>) returns (r: Result<Payload, ParseError>)
    ensures r == ParsePayload(messageType, bytes)
  {
    if messageType == CLIENT_HELLO {
      r := DecodeHello(bytes);
    } else if messageType == SERVER_CONFIG {
      r := DecodeConfig(bytes);
    } else if messageType == VIDEO_FRAME {
      r := DecodeVideo(bytes);
    } else if messageType == INPUT_BATCH {
      r := DecodeInput(bytes);
    } else {
      r := DecodeControl(bytes);
    }
  }
}
