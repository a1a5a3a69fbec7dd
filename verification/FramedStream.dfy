/** Frames over a byte stream that may move any number of bytes per call: the
    resumable writer, the exact reader, and what arrives when one feeds the other. */
module FramedStream {
  import opened Wrappers
  import opened Bytes
  import opened WireFormat
  import Utf8
  import WireCodec

  datatype IoStatus = Fine | PeerClosed | WouldBlock | Failed

  datatype IoResult = IoResult(status: IoStatus, transferred: nat)

  /** How the stream answers one call: it moves as much as `limit` allows and
      reports `status`, or it claims to have moved more than it was given. */
  datatype Turn = Move(limit: nat, status: IoStatus) | Overrun(extra: nat)

  function Min(a: nat, b: nat): nat {
    if a < b then a else b
  }

  /** One answer of a stream to a call for so many bytes. */
  datatype Answer = Answer(result: IoResult, size: nat)

  /** What an answer means for a frame under way: more bytes than there are is an
      error, and none at all means that the peer has closed. */
  function Verdict(a: Answer): IoStatus {
    if a.result.transferred > a.size then Failed
    else if a.result.status == Fine && a.result.transferred == 0 then PeerClosed
    else a.result.status
  }

  /** The first answer that is not fine decides. */
  function Decided(answers: seq<Answer>): IoStatus {
    if answers == [] then Fine
    else if Verdict(answers[0]) != Fine then Verdict(answers[0])
    else Decided(answers[1..])
  }

  lemma {:induction false} DecidedOn(answers: seq<Answer>, more: seq<Answer>)
    ensures Decided(answers + more) == if Decided(answers) == Fine then Decided(more) else Decided(answers)
  {
    if answers == [] {
      assert answers + more == more;
    } else {
      assert (answers + more)[1..] == answers[1..] + more;
      DecidedOn(answers[1..], more);
    }
  }

  /** A socket, as far as frames are concerned; `turns` is an arbitrary schedule. */
  class ByteStream {
    const turns: nat -> Turn
    var clock: nat
    var incoming: seq<u8>
    var sent: seq<u8>
    ghost var answers: seq<Answer>

    constructor (turns: nat -> Turn, incoming: seq<u8>)
      ensures this.turns == turns && this.incoming == incoming && sent == [] && clock == 0 && answers == []
    {
      this.turns, this.incoming, sent, clock, answers := turns, incoming, [], 0, [];
    }

    method Write(source: seq<u8>) returns (r: IoResult)
      modifies this
      ensures incoming == old(incoming) && answers == old(answers) + [Answer(r, |source|)]
      ensures r.transferred <= |source| ==> sent == old(sent) + source[..r.transferred]
      ensures r.transferred > |source| ==> sent == old(sent)
      ensures Steady(turns) && source != [] ==> r.status == Fine && 0 < r.transferred <= |source|
    {
      var turn := turns(clock);
      clock := clock + 1;
      match turn {
        case Move(limit, status) =>
          var n := Min(limit, |source|);
          sent := sent + source[..n];
          r := IoResult(status, n);
        case Overrun(extra) => r := IoResult(Fine, |source| + 1 + extra);
      }
      answers := answers + [Answer(r, |source|)];
    }

    method Read(size: nat) returns (r: IoResult, block: seq<u8>)
      modifies this
      ensures sent == old(sent) && answers == old(answers) + [Answer(r, size)]
      ensures r.transferred <= size ==> r.transferred <= |old(incoming)| && block == old(incoming)[..r.transferred]
      ensures r.transferred <= size ==> incoming == old(incoming)[r.transferred..]
      ensures r.transferred > size ==> incoming == old(incoming)
      ensures Steady(turns) && size > 0 && old(incoming) != [] ==> r.status == Fine && 0 < r.transferred <= size
    {
      var turn := turns(clock);
      clock := clock + 1;
      match turn {
        case Move(limit, status) =>
          var n := Min(limit, Min(size, |incoming|));
          block := incoming[..n];
          incoming := incoming[n..];
          r := IoResult(status, n);
        case Overrun(extra) => r, block := IoResult(Fine, size + 1 + extra), [];
      }
      answers := answers + [Answer(r, size)];
    }
  }

  /** The stream never blocks, closes or fails, in whatever chunks it moves the bytes. */
  ghost predicate Steady(turns: nat -> Turn) {
    forall t: nat :: turns(t).Move? && turns(t).limit > 0 && turns(t).status == Fine
  }

  ghost predicate AllEncodable(frames: seq<Frame>) {
    forall k | 0 <= k < |frames| :: Encodable(frames[k])
  }

  /** The encodings one after the other. */
  ghost function Encoded(frames: seq<Frame>): seq<u8>
    requires AllEncodable(frames)
  {
    if frames == [] then [] else FrameBytes(frames[0]) + Encoded(frames[1..])
  }

  lemma {:induction false} EncodedSnoc(frames: seq<Frame>, f: Frame)
    requires AllEncodable(frames) && Encodable(f)
    ensures Encoded(frames + [f]) == Encoded(frames) + FrameBytes(f)
  {
    hide Encodable, FrameBytes;
    if frames == [] {
      assert Encoded([f]) == FrameBytes(f) + Encoded([]);
    } else {
      EncodedSnoc(frames[1..], f);
      assert (frames + [f])[1..] == frames[1..] + [f];
    }
  }

  /** What the answers since then come to. */
  function Since(before: seq<Answer>, now: seq<Answer>): IoStatus {
    if before <= now then Decided(now[|before|..]) else Failed
  }

  lemma SinceOn(before: seq<Answer>, now: seq<Answer>, last: Answer)
    ensures Since(before, before) == Fine
    ensures before <= now ==>
              before <= now + [last]
              && Since(before, now + [last]) == if Since(before, now) == Fine then Verdict(last) else Since(before, now)
  {
    assert before[|before|..] == [];
    if before <= now {
      assert (now + [last])[|before|..] == now[|before|..] + [last];
      DecidedOn(now[|before|..], [last]);
    }
  }

  lemma SinceSplits(before: seq<Answer>, middle: seq<Answer>, now: seq<Answer>)
    requires before <= middle <= now
    ensures Since(before, now) == if Since(before, middle) == Fine then Since(middle, now) else Since(before, middle)
  {
    assert now[|before|..] == middle[|before|..] + now[|middle|..];
    DecidedOn(middle[|before|..], now[|middle|..]);
  }

  lemma FurtherOn(before: seq<u8>, bytes: seq<u8>, offset: nat, n: nat)
    requires offset + n <= |bytes|
    ensures before + bytes[..offset] + bytes[offset..][..n] == before + bytes[..offset + n]
  {
  }

  lemma AllThere(completed: seq<Frame>, current: seq<Frame>, bytes: seq<u8>)
    requires AllEncodable(completed) && AllEncodable(current) && |current| == 1 && bytes == FrameBytes(current[0])
    ensures AllEncodable(completed + current)
    ensures Encoded(completed + current) == Encoded(completed) + bytes[..|bytes|]
  {
    hide Encodable, FrameBytes, Encoded;
    EncodedSnoc(completed, current[0]);
    assert completed + current == completed + [current[0]] && bytes[..|bytes|] == bytes;
  }

  // The writer.

  class ResumableFrameWriter {
    var bytes: seq<u8>
    var offset: nat
    ghost var completed: seq<Frame>
    ghost var current: seq<Frame>

    /** What was sent is the completed frames and a prefix of the pending one. */
    ghost predicate SentExactly(stream: ByteStream)
      reads this, stream
    {
      && offset <= |bytes|
      && AllEncodable(completed) && AllEncodable(current)
      && (if bytes == [] then current == [] && offset == 0 else |current| == 1 && bytes == FrameBytes(current[0]))
      && stream.sent == Encoded(completed) + bytes[..offset]
    }

    predicate Pending()
      reads this
    {
      bytes != []
    }

    constructor ()
      ensures bytes == [] && offset == 0 && completed == [] && current == []
    {
      bytes, offset, completed, current := [], 0, [], [];
    }

    method Start(frame: Frame, ghost stream: ByteStream) returns (r: IoResult)
      requires SentExactly(stream)
      modifies this
      ensures SentExactly(stream) && completed == old(completed) && r.transferred == 0
      ensures r.status == if !old(Pending()) && Encodable(frame) then Fine else Failed
      ensures current == if r.status == Fine then [frame] else old(current)
      ensures r.status == Failed ==> bytes == old(bytes) && offset == old(offset)
    {
      if Pending() {
        return IoResult(Failed, 0);
      }
      var encoded := WireCodec.EncodeFrame(frame);
      match encoded
      case Ok(output) =>
        bytes, offset := output, 0;
        current := [frame];
        r := IoResult(Fine, 0);
      case Err(_) =>
        bytes, offset := [], 0;
        r := IoResult(Failed, 0);
    }

    method Continue(stream: ByteStream) returns (r: IoResult)
      requires SentExactly(stream)
      modifies this, stream
      ensures SentExactly(stream)
      ensures !old(Pending()) ==> r == IoResult(Failed, 0) && stream.sent == old(stream.sent)
      ensures old(stream.answers) <= stream.answers && r.transferred == |stream.sent| - |old(stream.sent)|
      ensures old(Pending()) ==> r.status == Since(old(stream.answers), stream.answers)
      ensures !old(Pending()) ==> !Pending() && completed == old(completed)
      ensures Steady(stream.turns) && old(Pending()) ==> r.status == Fine
      ensures old(Pending()) && r.status == Fine ==> !Pending() && completed == old(completed) + old(current)
      ensures old(Pending()) && r.status != Fine ==>
                bytes == old(bytes) && current == old(current) && completed == old(completed)
                && offset == old(offset) + r.transferred
    {
      hide Encodable, FrameBytes, Encoded, Since;
      if !Pending() {
        return IoResult(Failed, 0);
      }
      var start := offset;
      ghost var before := stream.answers;
      SinceOn(before, before, Answer(IoResult(Fine, 0), 0));
      while offset < |bytes|
        invariant before <= stream.answers && Since(before, stream.answers) == Fine
        invariant start <= offset <= |bytes|
        invariant bytes == old(bytes) && completed == old(completed) && current == old(current)
        invariant stream.sent == Encoded(completed) + bytes[..offset]
        modifies this`offset, stream
      {
        ghost var answers := stream.answers;
        var result := stream.Write(bytes[offset..]);
        SinceOn(before, answers, Answer(result, |bytes| - offset));
        if result.transferred > |bytes| - offset {
          return IoResult(Failed, offset - start);
        }
        FurtherOn(Encoded(completed), bytes, offset, result.transferred);
        offset := offset + result.transferred;
        if result.status != Fine {
          return IoResult(result.status, offset - start);
        }
        if result.transferred == 0 {
          return IoResult(PeerClosed, offset - start);
        }
      }
      r := IoResult(Fine, offset - start);
      AllThere(completed, current, bytes);
      completed := completed + current;
      bytes, offset := [], 0;
      current := [];
    }
  }

  datatype WriterCall = StartCall(frame: Frame) | ContinueCall

  /** The frames whose `Start` was answered with success, in order. */
  function Accepted(calls: seq<WriterCall>, results: seq<IoStatus>): seq<Frame>
    requires |results| == |calls|
  {
    if calls == [] then []
    else
      var n := |calls| - 1;
      Accepted(calls[..n], results[..n]) + if calls[n].StartCall? && results[n] == Fine then [calls[n].frame] else []
  }

  /** How many `Continue` calls finished a frame. */
  function Finished(calls: seq<WriterCall>, results: seq<IoStatus>): nat
    requires |results| == |calls|
  {
    if calls == [] then 0
    else
      var n := |calls| - 1;
      Finished(calls[..n], results[..n]) + if calls[n].ContinueCall? && results[n] == Fine then 1 else 0
  }

  lemma NoCalls()
    ensures Accepted([], []) == [] && Finished([], []) == 0
  {
  }

  lemma OneMoreCall(calls: seq<WriterCall>, results: seq<IoStatus>, call: WriterCall, status: IoStatus)
    requires |results| == |calls|
    ensures Accepted(calls + [call], results + [status])
         == Accepted(calls, results) + if call.StartCall? && status == Fine then [call.frame] else []
    ensures Finished(calls + [call], results + [status])
         == Finished(calls, results) + if call.ContinueCall? && status == Fine then 1 else 0
  {
    assert (calls + [call])[..|calls|] == calls && (results + [status])[..|results|] == results;
  }

  /** Each `Start`, of a frame that can be encoded, is followed by one `Continue`. */
  ghost predicate OneByOne(calls: seq<WriterCall>) {
    forall i | 0 <= i < |calls| ::
      if i % 2 == 0 then calls[i].StartCall? && Encodable(calls[i].frame) else calls[i].ContinueCall?
  }

  /** Any calls in any order, over any stream: what was sent is always the
      encodings of the accepted frames, in order, cut off somewhere in the last. */
  method Send(calls: seq<WriterCall>, stream: ByteStream) returns (writer: ResumableFrameWriter, results: seq<IoStatus>)
    requires stream.sent == []
    modifies stream
    ensures fresh(writer) && writer.SentExactly(stream) && |results| == |calls|
    ensures writer.completed + writer.current == Accepted(calls, results)
    ensures |writer.completed| == Finished(calls, results)
    ensures Steady(stream.turns) && OneByOne(calls) ==> forall i | 0 <= i < |results| :: results[i] == Fine
  {
    hide Encodable, FrameBytes, Accepted, Finished;
    NoCalls();
    writer := new ResumableFrameWriter();
    results := [];
    for i := 0 to |calls|
      invariant fresh(writer) && writer.SentExactly(stream) && |results| == i
      invariant writer.completed + writer.current == Accepted(calls[..i], results)
      invariant |writer.completed| == Finished(calls[..i], results)
      invariant Steady(stream.turns) && OneByOne(calls) ==>
                  (writer.Pending() <==> i % 2 == 1) && forall k | 0 <= k < i :: results[k] == Fine
    {
      ghost var completed := writer.completed;
      var r;
      match calls[i] {
        case StartCall(frame) =>
          r := writer.Start(frame, stream);
          assert r.status == Fine ==> completed + [] + [frame] == completed + [frame];
        case ContinueCall =>
          r := writer.Continue(stream);
          assert writer.completed + [] == writer.completed;
      }
      OneMoreCall(calls[..i], results, calls[i], r.status);
      assert calls[..i] + [calls[i]] == calls[..i + 1];
      results := results + [r.status];
    }
    assert calls[..|calls|] == calls;
  }

  // The reader.

  method ReadExact(stream: ByteStream, size: nat) returns (r: IoResult, got: seq<u8>)
    modifies stream
    ensures r.transferred == |got| && |got| <= size && |got| <= |old(stream.incoming)|
    ensures got == old(stream.incoming)[..|got|] && stream.incoming == old(stream.incoming)[|got|..]
    ensures r.status == Fine ==> |got| == size
    ensures old(stream.answers) <= stream.answers && r.status == Since(old(stream.answers), stream.answers)
    ensures Steady(stream.turns) && size <= |old(stream.incoming)| ==> r.status == Fine
  {
    hide Since, Decided;
    got := [];
    ghost var before := stream.answers;
    SinceOn(before, before, Answer(IoResult(Fine, 0), 0));
    while |got| < size
      invariant before <= stream.answers && Since(before, stream.answers) == Fine
      invariant |got| <= size && |got| <= |old(stream.incoming)|
      invariant got == old(stream.incoming)[..|got|] && stream.incoming == old(stream.incoming)[|got|..]
      decreases size - |got|
    {
      ghost var answers := stream.answers;
      var result, block := stream.Read(size - |got|);
      SinceOn(before, answers, Answer(result, size - |got|));
      if result.transferred > size - |got| {
        return IoResult(Failed, |got|), got;
      }
      got := got + block;
      if result.status != Fine {
        return IoResult(result.status, |got|), got;
      }
      if result.transferred == 0 {
        return IoResult(PeerClosed, |got|), got;
      }
    }
    r := IoResult(Fine, |got|);
  }

  /** The length the header announces for the whole frame. */
  function FrameLength(b: seq<u8>): nat
    requires |b| >= 20
  {
    20 + UnLe(b[16..20])
  }

  lemma HeaderOffsets()
    ensures Sum(HEADER) == 20 && Sum(HEADER[..0]) == 0 && Sum(HEADER[..1]) == 4
    ensures Sum(HEADER[..2]) == 6 && Sum(HEADER[..5]) == 16
  {
    assert HEADER[..1] == [4] && HEADER[..2] == [4, 2] && HEADER[..5] == [4, 2, 2, 4, 4];
    assert Sum([4]) == 4 && Sum([4, 2]) == 6 && Sum([4, 2, 2, 4, 4]) == 16;
    assert Sum(HEADER) == 20 by {
      Widths();
    }
  }

  lemma HeaderLength(b: seq<u8>)
    requires |b| >= 20
    ensures Sum(HEADER) == 20 && Front(HEADER, b)[5] == UnLe(b[16..20])
  {
    hide Unpack, Sum, UnLe;
    HeaderOffsets();
    UnpackAt(HEADER, b, 5);
  }

  /** A frame's own header tells where the frame ends, whatever follows. */
  lemma EncodedLength(f: Frame, rest: seq<u8>)
    requires Encodable(f)
    ensures |FrameBytes(f)| >= 20 && FrameLength(FrameBytes(f) + rest) == |FrameBytes(f)|
  {
    hide Pack, Unpack, Sum, ParsePayload;
    DecodeEncode(f);
    HeaderLength(FrameBytes(f));
    assert (FrameBytes(f) + rest)[16..20] == FrameBytes(f)[16..20];
  }

  /** Two encodings at the front of the same bytes are the same frame. */
  lemma PrefixFree(f: Frame, g: Frame, afterF: seq<u8>, afterG: seq<u8>)
    requires Encodable(f) && Encodable(g)
    requires FrameBytes(f) + afterF == FrameBytes(g) + afterG
    ensures f == g && afterF == afterG
  {
    hide Encodable, FrameBytes, ParseFrame;
    EncodedLength(f, afterF);
    EncodedLength(g, afterG);
    var b := FrameBytes(f) + afterF;
    var n := |FrameBytes(f)|;
    assert b[..n] == FrameBytes(f) && b[n..] == afterF;
    assert b[..n] == FrameBytes(g) && b[n..] == afterG;
    DecodeEncode(f);
    DecodeEncode(g);
  }

  /** What a read took off the stream. */
  function Taken(incoming: seq<u8>, r: IoResult): seq<u8> {
    incoming[..Min(r.transferred, |incoming|)]
  }

  predicate AnnouncesTooMuch(b: seq<u8>) {
    |b| >= 20 && FrameLength(b) > 20 + 0x80_0000
  }

  lemma TooMuchIsRejected(b: seq<u8>)
    requires AnnouncesTooMuch(b) && |b| == 20
    ensures ParseFrame(b).Err?
  {
    hide ParsePayload, Unpack, UnLe;
    HeaderLength(b);
  }

  /** `ReadFrame`.  Whatever the stream answered that was not fine is the answer of
      the read; otherwise it is decided by the bytes.  The bytes of an incomplete frame are gone: exactly
      `transferred` bytes have left the stream, whatever the outcome. */
  method ReadFrame(stream: ByteStream) returns (r: IoResult, frame: Option<Frame>)
    modifies stream
    ensures r.transferred <= |old(stream.incoming)| && stream.incoming == old(stream.incoming)[r.transferred..]
    ensures r.status == Fine <==> frame.Some?
    ensures old(stream.answers) <= stream.answers
    ensures var decided := Since(old(stream.answers), stream.answers);
            if decided != Fine then r.status == decided
            else
              && |Taken(old(stream.incoming), r)| == r.transferred >= 20
              && r.transferred == (if AnnouncesTooMuch(Taken(old(stream.incoming), r)) then 20
                                   else FrameLength(Taken(old(stream.incoming), r)))
              && r.status == (if ParseFrame(Taken(old(stream.incoming), r)).Ok? then Fine else Failed)
    ensures r.status == Fine ==>
              Encodable(frame.value) && old(stream.incoming) == FrameBytes(frame.value) + stream.incoming
    ensures Steady(stream.turns) ==> forall f, rest |
              Encodable(f) && old(stream.incoming) == FrameBytes(f) + rest :: frame == Some(f)
  {
    hide Encodable, FrameBytes, ParseFrame, Since;
    ghost var before, answers := stream.incoming, stream.answers;
    ghost var steady := Steady(stream.turns);
    forall f, rest | Encodable(f) && before == FrameBytes(f) + rest
      ensures 20 <= |before| && FrameLength(before) == |FrameBytes(f)|
    {
      EncodedLength(f, rest);
    }
    var header, body;
    r, header := ReadExact(stream, 20);
    frame := None;
    if r.status != Fine {
      return;
    }
    var payloadLength := UnLe(header[16..20]);
    assert header[16..20] == before[16..20];
    forall f, rest | Encodable(f) && before == FrameBytes(f) + rest
      ensures 20 + payloadLength == |FrameBytes(f)| && payloadLength <= MAX_PAYLOAD
      ensures before[..20 + payloadLength] == FrameBytes(f)
    {
      FrameFits(f);
    }
    if payloadLength > MAX_PAYLOAD {
      TooMuchIsRejected(header);
      return IoResult(Failed, r.transferred), None;
    }
    ghost var early := stream.answers;
    body := [];
    if payloadLength != 0 {
      var read;
      read, body := ReadExact(stream, payloadLength);
      r := IoResult(read.status, read.transferred + r.transferred);
      assert stream.incoming == before[r.transferred..];
      SinceSplits(answers, early, stream.answers);
      if r.status != Fine {
        return;
      }
    }
    assert header + body == before[..20 + payloadLength];
    var decoded := WireCodec.DecodeFrame(header + body);
    match decoded
    case Err(_) =>
      forall f, rest | Encodable(f) && before == FrameBytes(f) + rest
        ensures false
      {
        DecodeEncode(f);
      }
      return IoResult(Failed, r.transferred), None;
    case Ok(value) =>
      EncodeDecode(header + body);
      frame := Some(value);
      assert before == FrameBytes(value) + stream.incoming;
      forall f, rest | Encodable(f) && before == FrameBytes(f) + rest
        ensures value == f
      {
        PrefixFree(value, f, stream.incoming, rest);
      }
  }

  lemma FrameFits(f: Frame)
    requires Encodable(f)
    ensures |FrameBytes(f)| <= 20 + MAX_PAYLOAD
  {
    Widths();
    PayloadSizes(f.payload);
  }

  /** A frame cut off before its end, possibly before its start. */
  ghost predicate Torn(tail: seq<u8>) {
    tail == [] || exists g, cut | Encodable(g) && 0 <= cut < |FrameBytes(g)| :: tail == FrameBytes(g)[..cut]
  }

  lemma TornHasNoFrame(tail: seq<u8>, f: Frame, rest: seq<u8>)
    requires Torn(tail) && Encodable(f)
    ensures FrameBytes(f) + rest != tail
  {
    hide Encodable, FrameBytes;
    EncodedLength(f, rest);
    if tail != [] {
      var g, cut :| Encodable(g) && 0 <= cut < |FrameBytes(g)| && tail == FrameBytes(g)[..cut];
      EncodedLength(g, []);
      assert FrameBytes(g) + [] == FrameBytes(g);
      assert cut >= 20 ==> tail[16..20] == FrameBytes(g)[16..20];
    }
  }

  /** A frame read at a boundary is the next one that was sent. */
  lemma NextFrame(frames: seq<Frame>, tail: seq<u8>, i: nat, f: Frame, rest: seq<u8>)
    requires AllEncodable(frames) && Torn(tail) && i <= |frames| && Encodable(f)
    requires Encoded(frames[i..]) + tail == FrameBytes(f) + rest
    ensures i < |frames| && f == frames[i] && rest == Encoded(frames[i + 1..]) + tail
  {
    hide Encodable, FrameBytes, Torn;
    if i == |frames| {
      assert Encoded(frames[i..]) + tail == tail;
      TornHasNoFrame(tail, f, rest);
    } else {
      EncodedTail(frames, i);
      var after := Encoded(frames[i + 1..]) + tail;
      assert FrameBytes(frames[i]) + after == FrameBytes(f) + rest;
      PrefixFree(frames[i], f, after, rest);
    }
  }

  lemma EncodedTail(frames: seq<Frame>, i: nat)
    requires AllEncodable(frames) && i < |frames|
    ensures Encoded(frames[i..]) == FrameBytes(frames[i]) + Encoded(frames[i + 1..])
  {
    hide Encodable, FrameBytes;
    assert frames[i..][1..] == frames[i + 1..];
  }

  /** No read blocked inside a frame. */
  predicate AtBoundaries(outcomes: seq<IoResult>) {
    forall k | 0 <= k < |outcomes| && outcomes[k].status == WouldBlock :: outcomes[k].transferred == 0
  }

  predicate Uninterrupted(outcomes: seq<IoResult>) {
    forall k | 0 <= k < |outcomes| :: outcomes[k].status == Fine || outcomes[k].status == WouldBlock
  }

  /** The bytes read and thrown away by reads that blocked. */
  function BytesLost(outcomes: seq<IoResult>): nat {
    if outcomes == [] then 0
    else
      var last := outcomes[|outcomes| - 1];
      BytesLost(outcomes[..|outcomes| - 1]) + if last.status == WouldBlock then last.transferred else 0
  }

  lemma {:induction false} NothingLostAtBoundaries(outcomes: seq<IoResult>)
    ensures AtBoundaries(outcomes) <==> BytesLost(outcomes) == 0
  {
    if outcomes != [] {
      var before, last := outcomes[..|outcomes| - 1], outcomes[|outcomes| - 1];
      assert before + [last] == outcomes;
      OneMoreRead(before, last);
      NothingLostAtBoundaries(before);
    }
  }

  lemma OneMoreRead(outcomes: seq<IoResult>, r: IoResult)
    ensures AtBoundaries(outcomes + [r]) <==> AtBoundaries(outcomes) && (r.status == WouldBlock ==> r.transferred == 0)
    ensures Uninterrupted(outcomes + [r]) <==> Uninterrupted(outcomes) && (r.status == Fine || r.status == WouldBlock)
    ensures BytesLost(outcomes + [r]) == BytesLost(outcomes) + if r.status == WouldBlock then r.transferred else 0
    ensures AtBoundaries([]) && Uninterrupted([]) && BytesLost([]) == 0
  {
    var more := outcomes + [r];
    assert more[..|outcomes|] == outcomes;
    assert more[|outcomes|] == r && forall k | 0 <= k < |outcomes| :: more[k] == outcomes[k];
  }

  /** The reader is in step: it has the frames sent, in order and from the
      first, and the others are what is left on the stream. */
  ghost predicate InStep(frames: seq<Frame>, sent: seq<Frame>, incoming: seq<u8>, tail: seq<u8>)
    requires AllEncodable(sent)
  {
    |frames| <= |sent| && frames == sent[..|frames|] && incoming == Encoded(sent[|frames|..]) + tail
  }

  lemma EncodedNothing()
    ensures Encoded([]) == []
  {
  }

  lemma {:induction false} EncodedSplit(frames: seq<Frame>, n: nat)
    requires AllEncodable(frames) && n <= |frames|
    ensures Encoded(frames) == Encoded(frames[..n]) + Encoded(frames[n..])
  {
    hide Encodable, FrameBytes;
    if n == 0 {
      assert frames[0..] == frames && frames[..0] == [];
    } else {
      EncodedSplit(frames[1..], n - 1);
      assert frames[..n][1..] == frames[1..][..n - 1] && frames[1..][n - 1..] == frames[n..];
      assert Encoded(frames[..n]) == FrameBytes(frames[0]) + Encoded(frames[1..][..n - 1]);
    }
  }

  /** Repeated `ReadFrame`, as the channel loops do it: they go on after a
      would-block and end on anything else.  Whatever the chunks, the frames
      received are the frames sent unless a read blocked inside a frame; and as
      long as the loop runs it is in step if and only if none did. */
  method Receive(stream: ByteStream, rounds: nat, ghost sent: seq<Frame>, ghost tail: seq<u8>)
    returns (frames: seq<Frame>, outcomes: seq<IoResult>)
    requires AllEncodable(sent) && Torn(tail) && stream.incoming == Encoded(sent) + tail
    modifies stream
    ensures AtBoundaries(outcomes) ==> |frames| <= |sent| && frames == sent[..|frames|]
    ensures Uninterrupted(outcomes) ==> (AtBoundaries(outcomes) <==> InStep(frames, sent, stream.incoming, tail))
    ensures Steady(stream.turns) && rounds <= |sent| ==>
              AtBoundaries(outcomes) && Uninterrupted(outcomes) && |frames| == rounds
    ensures |outcomes| <= rounds && (Uninterrupted(outcomes) ==> |outcomes| == rounds)
    ensures |frames| <= |outcomes| && (outcomes != [] ==> Uninterrupted(outcomes[..|outcomes| - 1]))
  {
    hide Encodable, FrameBytes, Torn, Encoded, AtBoundaries, Uninterrupted, BytesLost;
    hide ParseFrame, FrameLength, AnnouncesTooMuch, Taken, Since;
    ghost var total := |stream.incoming|;
    EncodedNothing();
    frames, outcomes := [], [];
    OneMoreRead([], IoResult(Fine, 0));
    assert sent[0..] == sent;
    for i := 0 to rounds
      invariant Uninterrupted(outcomes) && AllEncodable(frames)
      invariant |outcomes| == i && |frames| <= i && (i > 0 ==> Uninterrupted(outcomes[..i - 1]))
      invariant AtBoundaries(outcomes) ==> InStep(frames, sent, stream.incoming, tail)
      invariant |stream.incoming| + |Encoded(frames)| + BytesLost(outcomes) == total
      invariant Steady(stream.turns) && rounds <= |sent| ==> AtBoundaries(outcomes) && |frames| == i
    {
      ghost var before := stream.incoming;
      ghost var n := |frames|;
      ghost var inStep := AtBoundaries(outcomes);
      if inStep && n < |sent| {
        EncodedTail(sent, n);
        assert before == FrameBytes(sent[n]) + (Encoded(sent[n + 1..]) + tail);
      }
      var r, frame := ReadFrame(stream);
      OneMoreRead(outcomes, r);
      assert (outcomes + [r])[..|outcomes|] == outcomes;
      outcomes := outcomes + [r];
      if r.status == WouldBlock {
        continue;
      }
      if r.status != Fine {
        return;
      }
      if inStep {
        NextFrame(sent, tail, n, frame.value, stream.incoming);
      }
      EncodedSnoc(frames, frame.value);
      frames := frames + [frame.value];
    }
    NothingLostAtBoundaries(outcomes);
    if InStep(frames, sent, stream.incoming, tail) {
      EncodedSplit(sent, |frames|);
    }
  }

  /** Sender and receiver joined: unless a read blocked inside a frame, the
      receiver gets a prefix of the frames the sender accepted; with a steady
      stream on its side every frame the sender finished; and with one on both
      sides every frame. */
  method Relay(calls: seq<WriterCall>, outgoing: nat -> Turn, arriving: nat -> Turn, rounds: nat)
    returns (frames: seq<Frame>, results: seq<IoStatus>, outcomes: seq<IoResult>)
    ensures |results| == |calls|
    ensures AtBoundaries(outcomes) ==>
              |frames| <= |Accepted(calls, results)| && frames == Accepted(calls, results)[..|frames|]
    ensures Steady(arriving) && rounds <= Finished(calls, results) ==> AtBoundaries(outcomes) && |frames| == rounds
    ensures Steady(outgoing) && OneByOne(calls) ==> forall i | 0 <= i < |results| :: results[i] == Fine
  {
    hide Encodable, FrameBytes, Encoded, Accepted, Finished, OneByOne, AtBoundaries;
    var wire := new ByteStream(outgoing, []);
    var writer;
    writer, results := Send(calls, wire);
    ghost var tail := writer.bytes[..writer.offset];
    ghost var whole := writer.completed;
    if writer.Pending() && writer.offset == |writer.bytes| {
      EncodedSnoc(writer.completed, writer.current[0]);
      whole, tail := Accepted(calls, results), [];
      assert whole == writer.completed + [writer.current[0]];
      assert wire.sent == Encoded(whole) + [];
    }
    assert Torn(tail);
    var receiver := new ByteStream(arriving, wire.sent);
    frames, outcomes := Receive(receiver, rounds, whole, tail);
  }

  // Would-blocks inside a frame.

  /** The bytes already read are lost.  If it struck within the first eleven
      bytes, no frame can be read from what follows. */
  lemma TornReadLosesStep(f: Frame, k: nat, rest: seq<u8>, g: Frame, after: seq<u8>)
    requires Encodable(f) && Encodable(g) && 1 <= k <= 11
    ensures |FrameBytes(f)| >= 20 && FrameBytes(f)[k..] + rest != FrameBytes(g) + after
  {
    EncodedLength(f, []);
    FirstBytes(f);
    FirstBytes(g);
    assert (FrameBytes(f)[k..] + rest)[0] == FrameBytes(f)[k];
    assert (FrameBytes(g) + after)[0] == FrameBytes(g)[0];
  }

  lemma FlagOffsets()
    ensures Sum(HEADER[..3]) == 8
  {
    assert HEADER[..3] == [4, 2, 2];
    assert Sum([4, 2, 2]) == 8;
  }

  lemma SmallLe(v: u32)
    requires v <= 1
    ensures Le(v, 4) == [v, 0, 0, 0]
  {
    assert Le(0, 3) == [0] + Le(0, 2) && Le(0, 2) == [0] + Le(0, 1) && Le(0, 1) == [0] + Le(0, 0);
  }

  lemma FirstBytes(f: Frame)
    requires Encodable(f)
    ensures |FrameBytes(f)| >= 20 && FrameBytes(f)[0] == 0x50
    ensures forall k | 1 <= k <= 11 :: FrameBytes(f)[k] != 0x50
  {
    hide FrameBytes;
    var b := FrameBytes(f);
    EncodedLength(f, []);
    StartOfHeader(f);
    FlagsInHeader(f);
    assert b[..12] == b[..8] + b[8..12];
    forall k | 1 <= k <= 11 ensures b[k] != 0x50 {
      assert b[k] == b[..12][k];
    }
  }

  lemma StartOfHeader(f: Frame)
    requires Encodable(f) && |FrameBytes(f)| >= 20
    ensures FrameBytes(f)[..8] == [0x50, 0x44, 0x42, 0x31, 1, 0, f.header.messageType, 0]
  {
    hide FrameBytes, Pack, Unpack, Sum, UnLe, ParsePayload;
    var b := FrameBytes(f);
    DecodeEncode(f);
    HeaderOffsets();
    UnpackAt(HEADER, b, 0);
    UnpackAt(HEADER, b, 1);
    UnpackAt(HEADER, b, 2);
    LeUnLe(b[0..4]);
    LeUnLe(b[4..6]);
    LeUnLe(b[6..8]);
    assert b[0..4] == [0x50, 0x44, 0x42, 0x31] && b[4..6] == [1, 0] && b[6..8] == [f.header.messageType, 0];
    assert b[..8] == b[0..4] + b[4..6] + b[6..8];
  }

  lemma FlagsInHeader(f: Frame)
    requires Encodable(f) && |FrameBytes(f)| >= 20
    ensures FrameBytes(f)[8..12] == [f.header.flags, 0, 0, 0] && f.header.flags <= 1
  {
    hide FrameBytes, Pack, Unpack, Sum, UnLe, ParsePayload, Le;
    var b := FrameBytes(f);
    DecodeEncode(f);
    HeaderOffsets();
    FlagOffsets();
    UnpackAt(HEADER, b, 3);
    LeUnLe(b[8..12]);
    SmallLe(f.header.flags);
  }

  /** A disconnect whose text is the encoding of another frame. */
  function Carrier(g: Frame): Frame
    requires Encodable(g)
  {
    Frame(FrameHeader(0, 0, CONTROL), Command(Disconnect(0, FrameBytes(g))))
  }

  lemma CarriedFrame(g: Frame)
    requires Encodable(g) && |FrameBytes(g)| <= 128 && Utf8.WellFormed(FrameBytes(g))
    ensures Encodable(Carrier(g)) && FrameBytes(Carrier(g))[28..] == FrameBytes(g)
    ensures |FrameBytes(Carrier(g))| == 28 + |FrameBytes(g)|
  {
    hide Pack, Sum, Utf8.WellFormed;
    var text := FrameBytes(g);
    var control := Disconnect(0, text);
    var body := Pack([0, |text|], [2, 2]);
    var envelope := Pack([Opcode(control), |ControlBody(control)|], ENVELOPE);
    var header := Pack(HeaderNumbers(Carrier(g).header, |PayloadBytes(Command(control))|), HEADER);
    assert |body| == 4 && |envelope| == 4 && |header| == 20 by {
      CarrierWidths();
    }
    assert FrameBytes(Carrier(g)) == header + (envelope + (body + text));
    assert (header + (envelope + (body + text)))[28..] == text;
  }

  lemma CarrierWidths()
    ensures Sum([2, 2]) == 4 && Sum(ENVELOPE) == 4 && Sum(HEADER) == 20
  {
    Widths();
  }

  lemma {:induction false} SmallNumbersAreAscii(values: seq<nat>, widths: seq<nat>)
    requires |values| == |widths| && forall i | 0 <= i < |values| :: values[i] <= 0x7F
    ensures forall i | 0 <= i < |Pack(values, widths)| :: Pack(values, widths)[i] <= 0x7F
  {
    if values != [] {
      SmallNumbersAreAscii(values[1..], widths[1..]);
      LeIsAscii(values[0], widths[0]);
    }
  }

  lemma {:induction false} LeIsAscii(v: nat, n: nat)
    requires v <= 0x7F
    ensures forall i | 0 <= i < n :: Le(v, n)[i] <= 0x7F
  {
    if n > 0 {
      LeIsAscii(v / 256, n - 1);
    }
  }

  const IDR_REQUEST := Frame(FrameHeader(0, 0, CONTROL), Command(RequestIdr))

  lemma RequestIsAscii(g: Frame)
    requires g == IDR_REQUEST
    ensures Encodable(g) && |FrameBytes(g)| == 24 && Utf8.WellFormed(FrameBytes(g))
  {
    hide Pack, Sum, Utf8.WellFormed;
    var payload := Pack([3, 0], ENVELOPE);
    assert PayloadBytes(g.payload) == payload + [] == payload;
    assert |payload| == 4 by {
      CarrierWidths();
    }
    var header := Pack([MAGIC, VERSION, CONTROL, 0, 0, 4], HEADER);
    assert FrameBytes(g) == header + payload;
    assert |header| == 20 by {
      CarrierWidths();
    }
    SmallNumbersAreAscii([3, 0], ENVELOPE);
    HeaderIsAscii([MAGIC, VERSION, CONTROL, 0, 0, 4], HEADER);
    Utf8.AsciiIsWellFormed(header + payload);
  }

  lemma HeaderIsAscii(values: seq<nat>, widths: seq<nat>)
    requires |values| == |widths| > 0 && values[0] == MAGIC && widths[0] == 4
    requires forall i | 1 <= i < |values| :: values[i] <= 0x7F
    ensures forall i | 0 <= i < |Pack(values, widths)| :: Pack(values, widths)[i] <= 0x7F
  {
    SmallNumbersAreAscii(values[1..], widths[1..]);
    assert Le(MAGIC, 4) == [0x50, 0x44, 0x42, 0x31];
  }

  /** From the twelfth byte on a frame can be read that was never sent: here a
      disconnect is cut after twenty-eight bytes and a request for an IDR, which
      its text spells out, arrives in its place. */
  method ReadsUnsentFrame(arriving: nat -> Turn) returns (sent: Frame, cut: nat, got: Option<Frame>)
    requires Steady(arriving)
    ensures Encodable(sent) && 12 <= cut < |FrameBytes(sent)| && got == Some(IDR_REQUEST) && sent != IDR_REQUEST
  {
    hide Encodable, FrameBytes, Utf8.WellFormed;
    var g := IDR_REQUEST;
    RequestIsAscii(g);
    CarriedFrame(g);
    sent, cut := Carrier(g), 28;
    var stream := new ByteStream(arriving, FrameBytes(sent)[cut..]);
    assert stream.incoming == FrameBytes(g) + [];
    var r;
    r, got := ReadFrame(stream);
  }
}
