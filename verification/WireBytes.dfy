/** The documented layout, byte position by byte position: for every byte string
    whether it is a frame, and which. */
module WireBytes {
  import opened Wrappers
  import opened Bytes
  import opened WireFormat
  import Utf8

  function U16At(b: seq<u8>, i: nat): (v: nat)
    requires i + 2 <= |b|
    ensures v < 0x1_0000
  {
    b[i] as int + 0x100 * b[i + 1] as int
  }

  function U32At(b: seq<u8>, i: nat): (v: nat)
    requires i + 4 <= |b|
    ensures v < 0x1_0000_0000
  {
    U16At(b, i) + 0x1_0000 * U16At(b, i + 2)
  }

  function U64At(b: seq<u8>, i: nat): (v: nat)
    requires i + 8 <= |b|
    ensures v < 0x1_0000_0000_0000_0000
  {
    U32At(b, i) + 0x1_0000_0000 * U32At(b, i + 4)
  }

  /** Two's complement. */
  function I16At(b: seq<u8>, i: nat): int
    requires i + 2 <= |b|
  {
    if b[i + 1] < 0x80 then U16At(b, i) else U16At(b, i) - 0x1_0000
  }

  // The header.

  /** "PDB1", version 1, a type from 1 to 5, the flag of a key frame on video alone,
      and the length of the rest. */
  predicate HeaderIs(b: seq<u8>) {
    && |b| >= 20
    && b[0] == 0x50 && b[1] == 0x44 && b[2] == 0x42 && b[3] == 0x31 && b[4] == 0x01 && b[5] == 0x00
    && 1 <= U16At(b, 6) <= 5
    && (U32At(b, 8) == 0 || (U16At(b, 6) == 3 && U32At(b, 8) == 1))
    && U32At(b, 16) == |b| - 20 && |b| - 20 <= 0x80_0000
  }

  // The payloads, at the offsets of the protocol's tables.

  predicate Rotation(value: nat) {
    value == 0 || value == 90 || value == 180 || value == 270
  }

  ghost predicate HelloIs(b: seq<u8>, p: ClientHello) {
    && |b| >= 28
    && p.capabilities == U32At(b, 0) < 0x100
    && p.displayWidth == U16At(b, 4) > 0 && p.displayHeight == U16At(b, 6) > 0
    && p.rotationDegrees == U16At(b, 8) && Rotation(U16At(b, 8))
    && p.maxTouchContacts == U16At(b, 10) <= 10
    && p.maxPenPressure == U16At(b, 12) > 0
    && p.videoCodecMask == U16At(b, 14) && b[14] % 2 == 1
    && p.maxVideoWidth == U32At(b, 16) > 0 && p.maxVideoHeight == U32At(b, 20) > 0
    && U16At(b, 24) <= 64 && U16At(b, 26) <= 32 && |b| == 28 + U16At(b, 24) + U16At(b, 26)
    && p.deviceName == b[28..28 + U16At(b, 24)] && p.osName == b[28 + U16At(b, 24)..]
    && Utf8.WellFormed(p.deviceName) && Utf8.WellFormed(p.osName)
  }

  ghost predicate ConfigIs(b: seq<u8>, p: ServerConfig) {
    && |b| == 40
    && p.sessionId == U64At(b, 0) > 0
    && p.displayId == U32At(b, 8)
    && p.videoWidth == U16At(b, 12) > 0 && p.videoHeight == U16At(b, 14) > 0
    && p.videoFps == U16At(b, 16) && 1 <= U16At(b, 16) <= 60
    && p.videoBitrateMbps == U16At(b, 18) && 20 <= U16At(b, 18) <= 120
    && p.contentLeft == U32At(b, 20) && p.contentTop == U32At(b, 24)
    && p.contentWidth == U32At(b, 28) > 0 && p.contentHeight == U32At(b, 32) > 0
    && p.configFlags == U32At(b, 36) <= 1
  }

  ghost predicate VideoIs(b: seq<u8>, p: VideoFrame) {
    && |b| > 20
    && p.captureTimestampNs == U64At(b, 0) && p.presentationTimestampNs == U64At(b, 8)
    && U32At(b, 16) == |b| - 20 <= 0x80_0000 - 20
    && p.accessUnit == b[20..]
  }

  ghost predicate SampleIs(b: seq<u8>, i: nat, s: InputSample)
    requires i + 22 <= |b|
  {
    && s.timestampDeltaUs == U32At(b, i)
    && s.pointerId == U16At(b, i + 4) > 0
    && s.tool == b[i + 6] && 1 <= b[i + 6] <= 3
    && s.contactFlags == b[i + 7] < 0x10
    && s.x == U16At(b, i + 8) && s.y == U16At(b, i + 10) && s.pressure == U16At(b, i + 12)
    && s.tiltX == I16At(b, i + 14) && -9000 <= I16At(b, i + 14) <= 9000
    && s.tiltY == I16At(b, i + 16) && -9000 <= I16At(b, i + 16) <= 9000
    && s.distance == U16At(b, i + 18)
    && s.buttons == U16At(b, i + 20) < 8
  }

  /** Where sample k of a batch begins. */
  function Start(k: nat): nat {
    12 + 22 * k
  }

  ghost predicate InputIs(b: seq<u8>, p: InputBatch) {
    && |b| >= 12
    && p.batchTimestampNs == U64At(b, 0)
    && |p.samples| == U16At(b, 8) && 1 <= U16At(b, 8) <= 64
    && U16At(b, 10) == 0
    && |b| == 12 + 22 * |p.samples|
    && (forall k | 0 <= k < |p.samples| :: SampleIs(b, Start(k), p.samples[k]))
    && (forall j, k | 0 <= j < k < |p.samples| :: U32At(b, Start(j)) <= U32At(b, Start(k)))
  }

  /** Opcode, length of the body, and the body. */
  ghost predicate ControlIs(b: seq<u8>, c: Control) {
    && |b| >= 4 && U16At(b, 2) == |b| - 4
    && match c
       case ClockSyncRequest(t1) => U16At(b, 0) == 1 && |b| == 12 && t1 == U64At(b, 4)
       case ClockSyncResponse(t1, t2, t3) =>
         U16At(b, 0) == 2 && |b| == 28 && t1 == U64At(b, 4) && t2 == U64At(b, 12) && t3 == U64At(b, 20)
       case RequestIdr => U16At(b, 0) == 3 && |b| == 4
       case OrientationChanged(rotation) =>
         U16At(b, 0) == 4 && |b| == 8 && rotation == U16At(b, 4) && Rotation(U16At(b, 4)) && U16At(b, 6) == 0
       case CapabilityChanged(capabilities) =>
         U16At(b, 0) == 5 && |b| == 8 && capabilities == U32At(b, 4) < 0x100
       case Telemetry(rtt, latency, dropped) =>
         U16At(b, 0) == 6 && |b| == 16 && rtt == U32At(b, 4) && latency == U32At(b, 8) && dropped == U32At(b, 12)
       case Disconnect(reason, message) =>
         && U16At(b, 0) == 7 && |b| >= 8 && reason == U16At(b, 4) && U16At(b, 6) == |b| - 8 <= 128
         && message == b[8..] && Utf8.WellFormed(message)
       case ClockSyncComplete(t1, t2, t3, t4) =>
         && U16At(b, 0) == 8 && |b| == 36
         && t1 == U64At(b, 4) && t2 == U64At(b, 12) && t3 == U64At(b, 20) && t4 == U64At(b, 28)
  }

  ghost predicate PayloadIs(b: seq<u8>, p: Payload) {
    match p
    case Hello(hello) => HelloIs(b, hello)
    case Config(config) => ConfigIs(b, config)
    case Video(video) => VideoIs(b, video)
    case Input(batch) => InputIs(b, batch)
    case Command(control) => ControlIs(b, control)
  }

  function TypeNumber(p: Payload): nat {
    match p
    case Hello(_) => 1
    case Config(_) => 2
    case Video(_) => 3
    case Input(_) => 4
    case Command(_) => 5
  }

  /** The bytes are this frame. */
  ghost predicate FrameIs(b: seq<u8>, f: Frame) {
    && HeaderIs(b)
    && f.header.messageType == U16At(b, 6) == TypeNumber(f.payload)
    && f.header.flags == U32At(b, 8) && f.header.sequence == U32At(b, 12)
    && PayloadIs(b[20..], f.payload)
  }

  // Numbers at offsets.

  lemma UnLeIs(s: seq<u8>)
    ensures |s| == 1 ==> UnLe(s) == s[0]
    ensures |s| == 2 ==> UnLe(s) == U16At(s, 0)
    ensures |s| == 4 ==> UnLe(s) == U32At(s, 0)
    ensures |s| == 8 ==> UnLe(s) == U64At(s, 0)
  {
    if |s| == 8 {
      UnLeIs(s[4..]);
      UnLeIs(s[..4]);
      UnLeSplit(s[..4], s[4..]);
      assert s[..4] + s[4..] == s;
    }
  }

  lemma {:induction false} UnLeSplit(s: seq<u8>, r: seq<u8>)
    ensures UnLe(s + r) == UnLe(s) + Pow256(|s|) * UnLe(r)
  {
    if s == [] {
      assert s + r == r;
    } else {
      UnLeSplit(s[1..], r);
      assert (s + r)[1..] == s[1..] + r;
      assert Pow256(|s|) * UnLe(r) == 256 * (Pow256(|s| - 1) * UnLe(r));
    }
  }

  lemma NumbersAt(b: seq<u8>, i: nat)
    ensures i + 1 <= |b| ==> UnLe(b[i..i + 1]) == b[i]
    ensures i + 2 <= |b| ==> UnLe(b[i..i + 2]) == U16At(b, i)
    ensures i + 4 <= |b| ==> UnLe(b[i..i + 4]) == U32At(b, i)
    ensures i + 8 <= |b| ==> UnLe(b[i..i + 8]) == U64At(b, i)
  {
    hide UnLe;
    if i + 1 <= |b| { UnLeIs(b[i..i + 1]); }
    if i + 2 <= |b| { UnLeIs(b[i..i + 2]); }
    if i + 4 <= |b| { UnLeIs(b[i..i + 4]); }
    if i + 8 <= |b| { UnLeIs(b[i..i + 8]); }
  }

  /** Where the number after the first k stands. */
  function Offset(widths: seq<nat>, k: nat): nat
    requires k <= |widths|
  {
    if k == 0 then 0 else Offset(widths, k - 1) + widths[k - 1]
  }

  lemma {:induction false} OffsetIsSum(widths: seq<nat>, k: nat)
    requires k <= |widths|
    ensures Offset(widths, k) == Sum(widths[..k])
  {
    if k > 0 {
      OffsetIsSum(widths, k - 1);
      SumOn(widths[..k - 1], widths[k - 1]);
      assert widths[..k] == widths[..k - 1] + [widths[k - 1]];
    }
  }

  lemma {:induction false} SumOn(widths: seq<nat>, w: nat)
    ensures Sum(widths + [w]) == Sum(widths) + w
  {
    if widths != [] {
      SumOn(widths[1..], w);
      assert (widths + [w])[1..] == widths[1..] + [w];
    }
  }

  /** Number k of those at the front of b. */
  lemma FieldAt(widths: seq<nat>, b: seq<u8>, k: nat)
    requires Sum(widths) <= |b| && k < |widths|
    ensures var i, v := Offset(widths, k), Front(widths, b)[k];
            && i + widths[k] <= |b|
            && (widths[k] == 1 ==> v == b[i]) && (widths[k] == 2 ==> v == U16At(b, i))
            && (widths[k] == 4 ==> v == U32At(b, i)) && (widths[k] == 8 ==> v == U64At(b, i))
  {
    hide Unpack, UnLe, Sum, Offset, U16At, U32At, U64At;
    OffsetIsSum(widths, k);
    UnpackAt(widths, b, k);
    NumbersAt(b, Offset(widths, k));
  }

  lemma HeaderFields(b: seq<u8>)
    requires |b| >= 20
    ensures Sum(HEADER) == 20
    ensures Front(HEADER, b)
         == [U32At(b, 0), U16At(b, 4), U16At(b, 6), U32At(b, 8), U32At(b, 12), U32At(b, 16)]
  {
    Widths();
    hide Sum, U16At, U32At, U64At;
    assert Offset(HEADER, 2) == 6;
    assert Offset(HEADER, 4) == 12;
    FieldAt(HEADER, b, 0);
    FieldAt(HEADER, b, 1);
    FieldAt(HEADER, b, 2);
    FieldAt(HEADER, b, 3);
    FieldAt(HEADER, b, 4);
    FieldAt(HEADER, b, 5);
  }

  lemma HelloFields(b: seq<u8>)
    requires |b| >= 28
    ensures Sum(HELLO) == 28
    ensures Front(HELLO, b)
         == [U32At(b, 0), U16At(b, 4), U16At(b, 6), U16At(b, 8), U16At(b, 10), U16At(b, 12), U16At(b, 14),
             U32At(b, 16), U32At(b, 20), U16At(b, 24), U16At(b, 26)]
  {
    Widths();
    hide Sum, U16At, U32At, U64At;
    assert Offset(HELLO, 2) == 6;
    assert Offset(HELLO, 4) == 10;
    assert Offset(HELLO, 6) == 14;
    assert Offset(HELLO, 8) == 20;
    assert Offset(HELLO, 10) == 26;
    FieldAt(HELLO, b, 0);
    FieldAt(HELLO, b, 1);
    FieldAt(HELLO, b, 2);
    FieldAt(HELLO, b, 3);
    FieldAt(HELLO, b, 4);
    FieldAt(HELLO, b, 5);
    FieldAt(HELLO, b, 6);
    FieldAt(HELLO, b, 7);
    FieldAt(HELLO, b, 8);
    FieldAt(HELLO, b, 9);
    FieldAt(HELLO, b, 10);
  }

  lemma ConfigFields(b: seq<u8>)
    requires |b| >= 40
    ensures Sum(CONFIG) == 40
    ensures Front(CONFIG, b)
         == [U64At(b, 0), U32At(b, 8), U16At(b, 12), U16At(b, 14), U16At(b, 16), U16At(b, 18),
             U32At(b, 20), U32At(b, 24), U32At(b, 28), U32At(b, 32), U32At(b, 36)]
  {
    Widths();
    hide Sum, U16At, U32At, U64At;
    assert Offset(CONFIG, 2) == 12;
    assert Offset(CONFIG, 4) == 16;
    assert Offset(CONFIG, 6) == 20;
    assert Offset(CONFIG, 8) == 28;
    assert Offset(CONFIG, 10) == 36;
    FieldAt(CONFIG, b, 0);
    FieldAt(CONFIG, b, 1);
    FieldAt(CONFIG, b, 2);
    FieldAt(CONFIG, b, 3);
    FieldAt(CONFIG, b, 4);
    FieldAt(CONFIG, b, 5);
    FieldAt(CONFIG, b, 6);
    FieldAt(CONFIG, b, 7);
    FieldAt(CONFIG, b, 8);
    FieldAt(CONFIG, b, 9);
    FieldAt(CONFIG, b, 10);
  }

  lemma VideoFields(b: seq<u8>)
    requires |b| >= 20
    ensures Sum(VIDEO) == 20
    ensures Front(VIDEO, b)
         == [U64At(b, 0), U64At(b, 8), U32At(b, 16)]
  {
    Widths();
    hide Sum, U16At, U32At, U64At;
    assert Offset(VIDEO, 2) == 16;
    FieldAt(VIDEO, b, 0);
    FieldAt(VIDEO, b, 1);
    FieldAt(VIDEO, b, 2);
  }

  lemma BatchFields(b: seq<u8>)
    requires |b| >= 12
    ensures Sum(BATCH) == 12
    ensures Front(BATCH, b)
         == [U64At(b, 0), U16At(b, 8), U16At(b, 10)]
  {
    Widths();
    hide Sum, U16At, U32At, U64At;
    assert Offset(BATCH, 2) == 10;
    FieldAt(BATCH, b, 0);
    FieldAt(BATCH, b, 1);
    FieldAt(BATCH, b, 2);
  }

  lemma SampleFields(b: seq<u8>)
    requires |b| >= 22
    ensures Sum(SAMPLE) == 22
    ensures Front(SAMPLE, b)
         == [U32At(b, 0), U16At(b, 4), b[6], b[7], U16At(b, 8), U16At(b, 10), U16At(b, 12), U16At(b, 14),
             U16At(b, 16), U16At(b, 18), U16At(b, 20)]
  {
    Widths();
    hide Sum, U16At, U32At, U64At;
    assert Offset(SAMPLE, 2) == 6;
    assert Offset(SAMPLE, 4) == 8;
    assert Offset(SAMPLE, 6) == 12;
    assert Offset(SAMPLE, 8) == 16;
    assert Offset(SAMPLE, 10) == 20;
    FieldAt(SAMPLE, b, 0);
    FieldAt(SAMPLE, b, 1);
    FieldAt(SAMPLE, b, 2);
    FieldAt(SAMPLE, b, 3);
    FieldAt(SAMPLE, b, 4);
    FieldAt(SAMPLE, b, 5);
    FieldAt(SAMPLE, b, 6);
    FieldAt(SAMPLE, b, 7);
    FieldAt(SAMPLE, b, 8);
    FieldAt(SAMPLE, b, 9);
    FieldAt(SAMPLE, b, 10);
  }

  lemma EnvelopeFields(b: seq<u8>)
    requires |b| >= 4
    ensures Sum(ENVELOPE) == 4
    ensures Front(ENVELOPE, b)
         == [U16At(b, 0), U16At(b, 2)]
  {
    Widths();
    hide Sum, U16At, U32At, U64At;
    FieldAt(ENVELOPE, b, 0);
    FieldAt(ENVELOPE, b, 1);
  }

  // The parser reads exactly that.

  lemma HelloReads(b: seq<u8>, p: Payload)
    ensures ParseHello(b) == Ok(p) <==> p.Hello? && HelloIs(b, p.hello)
  {
    hide Front, Sum, U16At, U32At, Utf8.WellFormed;
    if |b| >= 28 {
      HelloFields(b);
      CodecBit(b);
    } else {
      Widths();
    }
  }

  /** Bit 0 of the codec mask is bit 0 of its low byte. */
  lemma CodecBit(b: seq<u8>)
    requires |b| >= 28
    ensures U16At(b, 14) % 2 == b[14] % 2
  {
  }

  lemma ConfigReads(b: seq<u8>, p: Payload)
    ensures ParseConfig(b) == Ok(p) <==> p.Config? && ConfigIs(b, p.config)
  {
    if |b| == 40 {
      ConfigFields(b);
    }
  }

  lemma VideoReads(b: seq<u8>, p: Payload)
    ensures ParseVideo(b) == Ok(p) <==> p.Video? && VideoIs(b, p.video)
  {
    if |b| >= 20 {
      VideoFields(b);
    }
  }

  lemma SampleReads(b: seq<u8>, i: nat, s: InputSample)
    requires i + 22 <= |b|
    ensures Sum(SAMPLE) == 22
    ensures SampleOf(Front(SAMPLE, b[i..])) == s && ValidSample(s) <==> SampleIs(b, i, s)
    ensures SampleOf(Front(SAMPLE, b[i..])).timestampDeltaUs == U32At(b, i)
  {
    hide Front, Sum, U16At, U32At, Signed, I16At;
    SampleFields(b[i..]);
    Shifted(b, i);
    SignedIs(b, i + 14);
    SignedIs(b, i + 16);
  }

  lemma SignedIs(b: seq<u8>, i: nat)
    requires i + 2 <= |b|
    ensures Signed(U16At(b, i)) == I16At(b, i)
  {
  }

  lemma Shifted(b: seq<u8>, i: nat)
    requires i <= |b|
    ensures forall j: nat | i + j + 2 <= |b| :: U16At(b[i..], j) == U16At(b, i + j)
    ensures forall j: nat | i + j + 4 <= |b| :: U32At(b[i..], j) == U32At(b, i + j)
  {
  }

  lemma {:induction false} SamplesAt(b: seq<u8>, n: nat, k: nat)
    requires |b| == 22 * n && k < n
    ensures Sum(SAMPLE) == 22
    ensures SamplesOf(b, n)[k] == SampleOf(Front(SAMPLE, b[22 * k..]))
  {
    Widths();
    hide SampleOf, Front, Sum;
    if k > 0 {
      SamplesAt(b[22..], n - 1, k - 1);
      assert b[22..][22 * (k - 1)..] == b[22 * k..];
    } else {
      assert b[0..] == b;
    }
  }

  /** All samples after the prefix of a batch. */
  lemma SamplesRead(b: seq<u8>, n: nat)
    requires |b| == 12 + 22 * n
    ensures var samples := SamplesOf(b[12..], n);
            && (forall k | 0 <= k < n :: samples[k].timestampDeltaUs == U32At(b, Start(k)))
            && (forall k | 0 <= k < n :: SampleIs(b, Start(k), samples[k]) <==> ValidSample(samples[k]))
            && (forall k, s | 0 <= k < n && SampleIs(b, Start(k), s) :: samples[k] == s)
  {
    hide Front, Sum, U16At, U32At, SamplesOf, SampleIs, ValidSample, SampleOf;
    var samples := SamplesOf(b[12..], n);
    forall k | 0 <= k < n
      ensures samples[k].timestampDeltaUs == U32At(b, Start(k))
      ensures SampleIs(b, Start(k), samples[k]) <==> ValidSample(samples[k])
    {
      SampleAt(b, n, k, samples[k]);
    }
    forall k, s | 0 <= k < n && SampleIs(b, Start(k), s) ensures samples[k] == s {
      SampleAt(b, n, k, s);
    }
  }

  lemma SampleAt(b: seq<u8>, n: nat, k: nat, s: InputSample)
    requires |b| == 12 + 22 * n && k < n
    ensures var samples := SamplesOf(b[12..], n);
            && samples[k].timestampDeltaUs == U32At(b, Start(k))
            && (SampleIs(b, Start(k), s) <==> samples[k] == s && ValidSample(s))
  {
    hide Front, Sum, U16At, U32At, SamplesOf, SampleIs, ValidSample, SampleOf;
    SamplesAt(b[12..], n, k);
    assert b[12..][22 * k..] == b[Start(k)..];
    SampleReads(b, Start(k), s);
  }

  lemma InputReads(b: seq<u8>, p: Payload)
    ensures ParseInput(b) == Ok(p) <==> p.Input? && InputIs(b, p.batch)
  {
    hide Front, Sum, U16At, U32At, U64At, SamplesOf, SampleIs, ValidSample;
    if |b| >= 12 {
      BatchFields(b);
      var n := U16At(b, 8);
      if |b| == 12 + 22 * n {
        var samples := SamplesOf(b[12..], n);
        SamplesRead(b, n);
        if p.Input? && InputIs(b, p.batch) {
          assert p.batch.samples == samples;
        }
        if ParseInput(b) == Ok(p) {
          assert p.batch.samples == samples;
        }
      }
    } else {
      Widths();
    }
  }

  /** The numbers at the front of a control body. */
  lemma BodyFields(b: seq<u8>)
    ensures |b| >= 4 ==> Sum([4]) == Sum([2, 2]) == 4 && Front([4], b) == [U32At(b, 0)]
                         && Front([2, 2], b) == [U16At(b, 0), U16At(b, 2)]
    ensures |b| >= 8 ==> Sum([8]) == 8 && Front([8], b) == [U64At(b, 0)]
    ensures |b| >= 12 ==> Sum([4, 4, 4]) == 12 && Front([4, 4, 4], b) == [U32At(b, 0), U32At(b, 4), U32At(b, 8)]
  {
    hide U16At, U32At, U64At;
    assert Sum([4]) == 4 && Sum([2, 2]) == 4 && Sum([8]) == 8 && Sum([4, 4, 4]) == 12;
    hide Sum;
    if |b| >= 4 {
      FieldAt([4], b, 0);
      FieldAt([2, 2], b, 0);
      FieldAt([2, 2], b, 1);
    }
    if |b| >= 8 {
      FieldAt([8], b, 0);
    }
    if |b| >= 12 {
      FieldAt([4, 4, 4], b, 0);
      FieldAt([4, 4, 4], b, 1);
      FieldAt([4, 4, 4], b, 2);
    }
  }

  lemma LongBodyFields(b: seq<u8>)
    ensures |b| >= 24 ==> Sum([8, 8, 8]) == 24 && Front([8, 8, 8], b) == [U64At(b, 0), U64At(b, 8), U64At(b, 16)]
    ensures |b| >= 32 ==> Sum([8, 8, 8, 8]) == 32
                          && Front([8, 8, 8, 8], b) == [U64At(b, 0), U64At(b, 8), U64At(b, 16), U64At(b, 24)]
  {
    hide U16At, U32At, U64At;
    assert Sum([8, 8, 8]) == 24 && Sum([8, 8, 8, 8]) == 32;
    hide Sum;
    assert Offset([8, 8, 8], 2) == 16 && Offset([8, 8, 8, 8], 2) == 16;
    if |b| >= 24 {
      FieldAt([8, 8, 8], b, 0);
      FieldAt([8, 8, 8], b, 1);
      FieldAt([8, 8, 8], b, 2);
    }
    if |b| >= 32 {
      FieldAt([8, 8, 8, 8], b, 0);
      FieldAt([8, 8, 8, 8], b, 1);
      FieldAt([8, 8, 8, 8], b, 2);
      FieldAt([8, 8, 8, 8], b, 3);
    }
  }

  /** The same after the envelope. */
  lemma AfterEnvelope(b: seq<u8>)
    requires |b| >= 4
    ensures |b| >= 8 ==> U32At(b[4..], 0) == U32At(b, 4)
                         && U16At(b[4..], 0) == U16At(b, 4) && U16At(b[4..], 2) == U16At(b, 6)
    ensures |b| >= 12 ==> U64At(b[4..], 0) == U64At(b, 4)
    ensures |b| >= 16 ==> U32At(b[4..], 4) == U32At(b, 8) && U32At(b[4..], 8) == U32At(b, 12)
    ensures |b| >= 28 ==> U64At(b[4..], 8) == U64At(b, 12) && U64At(b[4..], 16) == U64At(b, 20)
    ensures |b| >= 36 ==> U64At(b[4..], 24) == U64At(b, 28)
    ensures |b| >= 8 ==> b[4..][4..] == b[8..]
  {
  }

  lemma ControlReads(b: seq<u8>, p: Payload)
    ensures ParseControl(b) == Ok(p) <==> p.Command? && ControlIs(b, p.control)
  {
    hide Front, Sum, U16At, U32At, U64At, Utf8.WellFormed;
    if |b| >= 4 {
      EnvelopeFields(b);
      BodyFields(b[4..]);
      LongBodyFields(b[4..]);
      AfterEnvelope(b);
    } else {
      Widths();
    }
  }
  /** A frame as a whole: any bytes parse as f exactly if they are f by the tables. */
  lemma FrameReads(b: seq<u8>, f: Frame)
    ensures ParseFrame(b) == Ok(f) <==> FrameIs(b, f)
  {
    hide Front, Sum, U16At, U32At, ParseHello, ParseConfig, ParseVideo, ParseInput, ParseControl, PayloadIs;
    if |b| >= 20 {
      HeaderFields(b);
      MagicIs(b);
      if 1 <= U16At(b, 6) <= 5 {
        PayloadReads(b[20..], U16At(b, 6), f.payload);
      }
    } else {
      Widths();
    }
  }

  lemma MagicIs(b: seq<u8>)
    requires |b| >= 6
    ensures U32At(b, 0) == MAGIC <==> b[0] == 0x50 && b[1] == 0x44 && b[2] == 0x42 && b[3] == 0x31
    ensures U16At(b, 4) == VERSION <==> b[4] == 0x01 && b[5] == 0x00
  {
  }

  lemma PayloadReads(b: seq<u8>, messageType: u16, p: Payload)
    requires 1 <= messageType <= 5
    ensures ParsePayload(messageType, b) == Ok(p) <==> messageType == TypeNumber(p) && PayloadIs(b, p)
  {
    hide ParseHello, ParseConfig, ParseVideo, ParseInput, ParseControl;
    hide HelloIs, ConfigIs, VideoIs, InputIs, ControlIs;
    HelloReads(b, p);
    ConfigReads(b, p);
    VideoReads(b, p);
    InputReads(b, p);
    ControlReads(b, p);
  }

  /** The errors that blame the header. */
  predicate BlamesHeader(e: ParseError) {
    e.TruncatedHeader? || e.WrongMagic? || e.UnsupportedVersion? || e.UnknownType? || e.UnknownFlag?
    || e.InvalidPayloadLength?
  }

  /** The first thing that is wrong with a header, if anything is. */
  function HeaderFault(b: seq<u8>): Option<ParseError> {
    if |b| < 20 then Some(TruncatedHeader)
    else if b[0] != 0x50 || b[1] != 0x44 || b[2] != 0x42 || b[3] != 0x31 then Some(WrongMagic)
    else if b[4] != 0x01 || b[5] != 0x00 then Some(UnsupportedVersion)
    else if U16At(b, 6) < 1 || U16At(b, 6) > 5 then Some(UnknownType)
    else if U32At(b, 8) != 0 && (U16At(b, 6) != 3 || U32At(b, 8) != 1) then Some(UnknownFlag)
    else if U32At(b, 16) != |b| - 20 || |b| - 20 > 0x80_0000 then Some(InvalidPayloadLength)
    else None
  }

  /** For any bytes: the header is accepted exactly if it is as documented, and
      otherwise the first fault is named. */
  lemma HeaderJudged(b: seq<u8>)
    ensures HeaderIs(b) <==> HeaderFault(b).None?
    ensures HeaderFault(b).None? <==> ParseFrame(b).Ok? || !BlamesHeader(ParseFrame(b).error)
    ensures HeaderFault(b).Some? ==> ParseFrame(b) == Err(HeaderFault(b).value)
  {
    hide Front, Sum, U16At, U32At, ParseHello, ParseConfig, ParseVideo, ParseInput, ParseControl;
    if |b| >= 20 {
      HeaderFields(b);
      MagicIs(b);
      PayloadErrors(b[20..], U16At(b, 6));
    } else {
      Widths();
    }
  }

  lemma PayloadErrors(b: seq<u8>, messageType: nat)
    requires messageType < 0x1_0000
    ensures ParsePayload(messageType, b).Err? ==> !BlamesHeader(ParsePayload(messageType, b).error)
  {
    hide Front, Sum, ValidHello, ValidConfig, ValidVideo, ValidInput, ValidControl, SamplesOf;
    Widths();
  }

  /** What the encoder writes is the frame by the tables; and it writes every frame
      that some bytes are. */
  lemma EncodableIs(f: Frame)
    ensures Encodable(f) ==> FrameIs(FrameBytes(f), f)
    ensures (exists b :: FrameIs(b, f)) <==> Encodable(f)
  {
    hide FrameIs, FrameBytes, ParseFrame, Encodable;
    if Encodable(f) {
      DecodeEncode(f);
      FrameReads(FrameBytes(f), f);
    }
    forall b | FrameIs(b, f) ensures Encodable(f) {
      FrameReads(b, f);
      EncodeDecode(b);
    }
  }

  // Golden frames of the protocol: encoded to these bytes, and read back from them.

  lemma Golden(header: seq<u8>, body: seq<u8>, f: Frame)
    requires |header| == 20 && HeaderIs(header + body) && PayloadIs(body, f.payload)
    requires var b := header + body;
             && f.header.messageType == U16At(b, 6) == TypeNumber(f.payload)
             && f.header.flags == U32At(b, 8) && f.header.sequence == U32At(b, 12)
    ensures ParseFrame(header + body) == Ok(f) && Encodable(f) && FrameBytes(f) == header + body
  {
    hide PayloadIs, HeaderIs, ParseFrame, Encodable, FrameBytes, U16At, U32At;
    assert (header + body)[20..] == body;
    FrameReads(header + body, f);
    EncodeDecode(header + body);
  }

  lemma FrontKept(front: seq<u8>, rest: seq<u8>)
    ensures forall i: nat | i + 2 <= |front| :: U16At(front + rest, i) == U16At(front, i)
    ensures forall i: nat | i + 4 <= |front| :: U32At(front + rest, i) == U32At(front, i)
  {
  }

  lemma SampleWithin(b: seq<u8>, i: nat, s: InputSample)
    requires i + 22 <= |b|
    ensures SampleIs(b, i, s) <==> SampleIs(b[i..i + 22], 0, s)
    ensures U32At(b, i) == U32At(b[i..i + 22], 0)
  {
  }

  lemma HelloFront(front: seq<u8>)
    requires front == [0xFF, 0x00, 0x00, 0x00, 0x80, 0x0C, 0x58, 0x08, 0x00, 0x00, 0x0A, 0x00]
                   + [0x00, 0x20, 0x01, 0x00, 0x80, 0x0C, 0x00, 0x00, 0x58, 0x08, 0x00, 0x00]
                   + [0x0C, 0x00, 0x09, 0x00]
    ensures U32At(front, 0) == 255 && U16At(front, 4) == 3200 && U16At(front, 6) == 2136 && U16At(front, 8) == 0
    ensures U16At(front, 10) == 10 && U16At(front, 12) == 8192 && U16At(front, 14) == 1 && front[14] == 1
    ensures U32At(front, 16) == 3200 && U32At(front, 20) == 2136 && U16At(front, 24) == 12 && U16At(front, 26) == 9
  {
  }

  lemma GoldenClientHello(header: seq<u8>, body: seq<u8>, front: seq<u8>, device: seq<u8>, os: seq<u8>, f: Frame)
    requires front == [0xFF, 0x00, 0x00, 0x00, 0x80, 0x0C, 0x58, 0x08, 0x00, 0x00, 0x0A, 0x00]
                   + [0x00, 0x20, 0x01, 0x00, 0x80, 0x0C, 0x00, 0x00, 0x58, 0x08, 0x00, 0x00]
                   + [0x0C, 0x00, 0x09, 0x00]
    requires device == [0x58, 0x69, 0x61, 0x6F, 0x6D, 0x69, 0x20, 0x50, 0x61, 0x64, 0x20, 0x37]
    requires os == [0x48, 0x79, 0x70, 0x65, 0x72, 0x4F, 0x53, 0x20, 0x32]
    requires header == [0x50, 0x44, 0x42, 0x31, 0x01, 0x00, 0x01, 0x00, 0x00, 0x00, 0x00, 0x00]
                    + [0x01, 0x00, 0x00, 0x00, 0x31, 0x00, 0x00, 0x00]
    requires body == front + (device + os)
    requires f == Frame(
             FrameHeader(0, 1, 1),
             Hello(ClientHello(255, 3200, 2136, 0, 10, 8192, 1, 3200, 2136, device, os)))
    ensures ParseFrame(header + body) == Ok(f) && Encodable(f) && FrameBytes(f) == header + body
  {
    hide ParseFrame, FrameBytes, Encodable, Utf8.WellFormed;
    HelloFront(front);
    FrontKept(front, device + os);
    hide U16At, U32At;
    Utf8.AsciiIsWellFormed(device);
    Utf8.AsciiIsWellFormed(os);
    Golden(header, body, f);
  }

  lemma GoldenServerConfig(header: seq<u8>, body: seq<u8>, f: Frame)
    requires header == [0x50, 0x44, 0x42, 0x31, 0x01, 0x00, 0x02, 0x00, 0x00, 0x00, 0x00, 0x00]
                    + [0x02, 0x00, 0x00, 0x00, 0x28, 0x00, 0x00, 0x00]
    requires body == [0x08, 0x07, 0x06, 0x05, 0x04, 0x03, 0x02, 0x01, 0x01, 0x00, 0x00, 0x00]
                  + [0x80, 0x0C, 0x58, 0x08, 0x3C, 0x00, 0x50, 0x00, 0x64, 0x00, 0x00, 0x00]
                  + [0xC8, 0x00, 0x00, 0x00, 0x00, 0x0A, 0x00, 0x00, 0xAB, 0x06, 0x00, 0x00]
                  + [0x01, 0x00, 0x00, 0x00]
    requires f == Frame(
             FrameHeader(0, 2, 2),
             Config(ServerConfig(72623859790382856, 1, 3200, 2136, 60, 80, 100, 200, 2560, 1707, 1)))
    ensures ParseFrame(header + body) == Ok(f) && Encodable(f) && FrameBytes(f) == header + body
  {
    hide ParseFrame, FrameBytes, Encodable, Utf8.WellFormed;
    Golden(header, body, f);
  }

  lemma GoldenVideoIdr(header: seq<u8>, body: seq<u8>, f: Frame)
    requires header == [0x50, 0x44, 0x42, 0x31, 0x01, 0x00, 0x03, 0x00, 0x01, 0x00, 0x00, 0x00]
                    + [0x03, 0x00, 0x00, 0x00, 0x1B, 0x00, 0x00, 0x00]
    requires body == [0x00, 0xCA, 0x9A, 0x3B, 0x00, 0x00, 0x00, 0x00, 0xA0, 0x50, 0x9C, 0x3B]
                  + [0x00, 0x00, 0x00, 0x00, 0x07, 0x00, 0x00, 0x00, 0x00, 0x00, 0x00, 0x01]
                  + [0x65, 0x88, 0x84]
    requires f == Frame(
             FrameHeader(1, 3, 3),
             Video(VideoFrame(1000000000, 1000100000, [0x00, 0x00, 0x00, 0x01, 0x65, 0x88, 0x84])))
    ensures ParseFrame(header + body) == Ok(f) && Encodable(f) && FrameBytes(f) == header + body
  {
    hide ParseFrame, FrameBytes, Encodable, Utf8.WellFormed;
    Golden(header, body, f);
  }

  lemma FirstSample(b: seq<u8>, s: InputSample)
    requires b == [0x00, 0x00, 0x00, 0x00, 0x01, 0x00, 0x01, 0x0B, 0x00, 0x00, 0xFF, 0xFF]
               + [0x00, 0x80, 0x64, 0x00, 0x38, 0xFF, 0x00, 0x01, 0x01, 0x00]
    requires s == InputSample(0, 1, 1, 11, 0, 65535, 32768, 100, -200, 256, 1)
    ensures SampleIs(b, 0, s)
  {
  }

  lemma SecondSample(b: seq<u8>, s: InputSample)
    requires b == [0xA0, 0x0F, 0x00, 0x00, 0x02, 0x00, 0x02, 0x0A, 0x00, 0x80, 0x00, 0x40]
               + [0xFF, 0xFF, 0x00, 0x00, 0x00, 0x00, 0xFF, 0xFF, 0x00, 0x00]
    requires s == InputSample(4000, 2, 2, 10, 32768, 16384, 65535, 0, 0, 65535, 0)
    ensures SampleIs(b, 0, s)
  {
  }

  lemma BatchOfTwo(body: seq<u8>, first: seq<u8>, second: seq<u8>, p: InputBatch)
    requires |first| == 22 && |second| == 22 && |p.samples| == 2
    requires body == [0x00, 0x94, 0x35, 0x77, 0x00, 0x00, 0x00, 0x00, 0x02, 0x00, 0x00, 0x00] + first + second
    requires p.batchTimestampNs == 2000000000 && SampleIs(first, 0, p.samples[0]) && SampleIs(second, 0, p.samples[1])
    requires p.samples[0].timestampDeltaUs <= p.samples[1].timestampDeltaUs
    ensures InputIs(body, p)
  {
    assert body[12..34] == first && body[34..56] == second;
    SampleWithin(body, Start(0), p.samples[0]);
    SampleWithin(body, Start(1), p.samples[1]);
    assert U32At(first, 0) == p.samples[0].timestampDeltaUs && U32At(second, 0) == p.samples[1].timestampDeltaUs;
    hide SampleIs, U32At;
    assert U64At(body, 0) == 2000000000 by {
      assert U32At(body, 0) == 2000000000 && U32At(body, 4) == 0 by {
        FrontOfBatch(body);
      }
    }
  }

  lemma FrontOfBatch(body: seq<u8>)
    requires |body| >= 12 && body[..12] == [0x00, 0x94, 0x35, 0x77, 0x00, 0x00, 0x00, 0x00, 0x02, 0x00, 0x00, 0x00]
    ensures U32At(body, 0) == 2000000000 && U32At(body, 4) == 0
  {
    assert forall i | 0 <= i < 12 :: body[i] == body[..12][i];
  }

  lemma GoldenInputBatch(header: seq<u8>, body: seq<u8>, first: seq<u8>, second: seq<u8>, f: Frame)
    requires first == [0x00, 0x00, 0x00, 0x00, 0x01, 0x00, 0x01, 0x0B, 0x00, 0x00, 0xFF, 0xFF]
                   + [0x00, 0x80, 0x64, 0x00, 0x38, 0xFF, 0x00, 0x01, 0x01, 0x00]
    requires second == [0xA0, 0x0F, 0x00, 0x00, 0x02, 0x00, 0x02, 0x0A, 0x00, 0x80, 0x00, 0x40]
                    + [0xFF, 0xFF, 0x00, 0x00, 0x00, 0x00, 0xFF, 0xFF, 0x00, 0x00]
    requires header == [0x50, 0x44, 0x42, 0x31, 0x01, 0x00, 0x04, 0x00, 0x00, 0x00, 0x00, 0x00]
                    + [0x04, 0x00, 0x00, 0x00, 0x38, 0x00, 0x00, 0x00]
    requires body == [0x00, 0x94, 0x35, 0x77, 0x00, 0x00, 0x00, 0x00, 0x02, 0x00, 0x00, 0x00] + first + second
    requires f == Frame(
             FrameHeader(0, 4, 4),
             Input(InputBatch(2000000000, [
               InputSample(0, 1, 1, 11, 0, 65535, 32768, 100, -200, 256, 1),
               InputSample(4000, 2, 2, 10, 32768, 16384, 65535, 0, 0, 65535, 0)])))
    ensures ParseFrame(header + body) == Ok(f) && Encodable(f) && FrameBytes(f) == header + body
  {
    hide ParseFrame, FrameBytes, Encodable, InputIs, SampleIs;
    var samples := f.payload.batch.samples;
    FirstSample(first, samples[0]);
    SecondSample(second, samples[1]);
    BatchOfTwo(body, first, second, f.payload.batch);
    Golden(header, body, f);
  }

  lemma GoldenControlClockSyncResponse(header: seq<u8>, body: seq<u8>, f: Frame)
    requires header == [0x50, 0x44, 0x42, 0x31, 0x01, 0x00, 0x05, 0x00, 0x00, 0x00, 0x00, 0x00]
                    + [0x06, 0x00, 0x00, 0x00, 0x1C, 0x00, 0x00, 0x00]
    requires body == [0x02, 0x00, 0x18, 0x00, 0x00, 0x5E, 0xD0, 0xB2, 0x00, 0x00, 0x00, 0x00]
                  + [0x10, 0x85, 0xD0, 0xB2, 0x00, 0x00, 0x00, 0x00, 0xF8, 0x88, 0xD0, 0xB2]
                  + [0x00, 0x00, 0x00, 0x00]
    requires f == Frame(FrameHeader(0, 6, 5), Command(ClockSyncResponse(3000000000, 3000010000, 3000011000)))
    ensures ParseFrame(header + body) == Ok(f) && Encodable(f) && FrameBytes(f) == header + body
  {
    hide ParseFrame, FrameBytes, Encodable, Utf8.WellFormed;
    Golden(header, body, f);
  }

  lemma GoldenControlOrientation(header: seq<u8>, body: seq<u8>, f: Frame)
    requires header == [0x50, 0x44, 0x42, 0x31, 0x01, 0x00, 0x05, 0x00, 0x00, 0x00, 0x00, 0x00]
                    + [0x08, 0x00, 0x00, 0x00, 0x08, 0x00, 0x00, 0x00]
    requires body == [0x04, 0x00, 0x04, 0x00, 0x5A, 0x00, 0x00, 0x00]
    requires f == Frame(FrameHeader(0, 8, 5), Command(OrientationChanged(90)))
    ensures ParseFrame(header + body) == Ok(f) && Encodable(f) && FrameBytes(f) == header + body
  {
    hide ParseFrame, FrameBytes, Encodable, Utf8.WellFormed;
    Golden(header, body, f);
  }

  lemma GoldenControlTelemetry(header: seq<u8>, body: seq<u8>, f: Frame)
    requires header == [0x50, 0x44, 0x42, 0x31, 0x01, 0x00, 0x05, 0x00, 0x00, 0x00, 0x00, 0x00]
                    + [0x0A, 0x00, 0x00, 0x00, 0x10, 0x00, 0x00, 0x00]
    requires body == [0x06, 0x00, 0x0C, 0x00, 0x40, 0x1F, 0x00, 0x00, 0xB8, 0x88, 0x00, 0x00]
                  + [0x02, 0x00, 0x00, 0x00]
    requires f == Frame(FrameHeader(0, 10, 5), Command(Telemetry(8000, 35000, 2)))
    ensures ParseFrame(header + body) == Ok(f) && Encodable(f) && FrameBytes(f) == header + body
  {
    hide ParseFrame, FrameBytes, Encodable, Utf8.WellFormed;
    Golden(header, body, f);
  }

  lemma GoldenControlDisconnect(header: seq<u8>, body: seq<u8>, message: seq<u8>, f: Frame)
    requires message == [0x6E, 0x6F, 0x72, 0x6D, 0x61, 0x6C, 0x20, 0x73, 0x68, 0x75, 0x74, 0x64]
                     + [0x6F, 0x77, 0x6E]
    requires header == [0x50, 0x44, 0x42, 0x31, 0x01, 0x00, 0x05, 0x00, 0x00, 0x00, 0x00, 0x00]
                    + [0x0B, 0x00, 0x00, 0x00, 0x17, 0x00, 0x00, 0x00]
    requires body == [0x07, 0x00, 0x13, 0x00, 0x2A, 0x00, 0x0F, 0x00] + message
    requires f == Frame(FrameHeader(0, 11, 5), Command(Disconnect(42, message)))
    ensures ParseFrame(header + body) == Ok(f) && Encodable(f) && FrameBytes(f) == header + body
  {
    hide ParseFrame, FrameBytes, Encodable, Utf8.WellFormed;
    Utf8.AsciiIsWellFormed(message);
    Golden(header, body, f);
  }
}
