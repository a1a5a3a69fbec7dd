/** The decoder commands that run on the handler thread: what each does to the
    codec, the pending frame, the input slots and the recovery phase. */
module AvcDecoding {
  import opened Wrappers
  import opened VideoInbox

  datatype Phase = Idle | Running | AwaitingIdr | Closed

  /** What MediaCodec answers when one input slot is used. */
  datatype InputSlot =
    | Unavailable                               // getInputBuffer returned null or threw
    | Buffer(capacity: nat, queueThrows: bool)

  /** One frame the codec instance `codec` accepted. */
  datatype Queued = Queued(codec: nat, frame: Frame)

  /** The decoder's own state.  `codec` is the number of the live codec instance
      and `created` counts the instances made so far.  The last four fields are
      the history the properties talk about: the frames queued to codecs, the
      value of |queued| at each IDR request, the frames reported as dropped, and
      the pending frames thrown away without a report. */
  datatype Decoder = Decoder(
    phase: Phase, codec: Option<nat>, created: nat, pending: Option<Frame>, slots: seq<int>,
    width: int, height: int, idrRequested: bool,
    queued: seq<Queued>, requests: seq<nat>, reported: nat, discarded: nat)

  /** What the reads of the volatile `closed` flag yield that one command makes,
      in program order: its own check, the one in `createCodecOnThread` before
      a frame is judged, the one in `handleCodecErrorOnThread`, and the one in
      `createCodecOnThread` after it.  Another thread may raise the flag
      between any two of them. */
  datatype Reads = Reads(entry: bool, create: bool, failure: bool, recreate: bool)

  const OPEN := Reads(false, false, false, false)

  /** The flag never goes down again. */
  predicate Monotone(r: Reads) {
    (r.entry ==> r.create) && (r.create ==> r.failure) && (r.failure ==> r.recreate)
  }

  const INITIAL := Decoder(Idle, None, 0, None, [], 0, 0, false, [], [], 0, 0)

  function Count(pending: Option<Frame>): nat {
    if pending.Some? then 1 else 0
  }

  // DecoderRecoveryState, on values.

  predicate Accepts(phase: Phase, keyFrame: bool) {
    phase == Running || (phase == AwaitingIdr && keyFrame)
  }

  function AfterError(phase: Phase): Phase {
    if phase == Closed then Closed else AwaitingIdr
  }

  function AfterQueued(phase: Phase, keyFrame: bool): Phase {
    if keyFrame && phase != Closed && phase != Idle then Running else phase
  }

  // AvcDecoder, on values.

  function RequestedIdrOnce(d: Decoder): Decoder {
    if d.idrRequested then d else d.(idrRequested := true, requests := d.requests + [|d.queued|])
  }

  function Released(d: Decoder): Decoder {
    d.(pending := None, slots := [], codec := None, discarded := d.discarded + Count(d.pending))
  }

  function CreatedCodec(d: Decoder, closed: bool, ok: bool): Decoder {
    if closed || d.width <= 0 || d.height <= 0 then d
    else
      var own := d.(codec := Some(d.created), created := d.created + 1);
      if ok then own
      else RequestedIdrOnce(Released(own.(phase := AfterError(own.phase))))
  }

  function HandledCodecError(d: Decoder, r: Reads, ok: bool): Decoder {
    if r.failure then d
    else
      var lost := d.(phase := AfterError(d.phase), reported := d.reported + Count(d.pending),
                     pending := None, slots := [], idrRequested := false);
      RequestedIdrOnce(CreatedCodec(Released(lost), r.recreate, ok))
  }

  function RecoveredReferences(d: Decoder): Decoder {
    RequestedIdrOnce(d.(phase := AfterError(d.phase), reported := d.reported + Count(d.pending),
                        pending := None, idrRequested := false))
  }

  predicate Fits(frame: Frame, slot: InputSlot) {
    slot.Buffer? && |frame.bytes| <= slot.capacity && !slot.queueThrows
  }

  function DrainedInput(d: Decoder, r: Reads, slot: InputSlot, recreated: bool): Decoder {
    if d.codec.None? || d.pending.None? || d.slots == [] then d
    else
      var frame := d.pending.value;
      var used := d.(slots := d.slots[1..]);
      if !Fits(frame, slot) then HandledCodecError(used, r, recreated)
      else
        used.(pending := None, queued := d.queued + [Queued(d.codec.value, frame)],
              phase := AfterQueued(d.phase, frame.keyFrame),
              idrRequested := if frame.keyFrame && d.phase != Closed && d.phase != Idle then false else d.idrRequested)
  }

  function Configured(d: Decoder, r: Reads, width: int, height: int, ok: bool): Decoder {
    if r.entry then d
    else
      var released := Released(d.(width := width, height := height));
      var awaiting := released.(idrRequested := false, phase := if d.phase == Closed then Closed else AwaitingIdr);
      RequestedIdrOnce(CreatedCodec(awaiting, r.create, ok))
  }

  /** A delivery before its frame is judged: a gap resets the references, and
      a key frame may bring a lost codec back. */
  function Prepared(d: Decoder, r: Reads, delivery: Delivery, created: bool): Decoder {
    var d1 := if delivery.dropped > 0 then RecoveredReferences(d.(reported := d.reported + delivery.dropped)) else d;
    if d1.codec.None? && delivery.frame.keyFrame then CreatedCodec(d1, r.create, created) else d1
  }

  /** A key frame may take the place of a pending frame; an inter frame that
      meets one is lost, and the pending frame with it. */
  function Admitted(d: Decoder, r: Reads, frame: Frame, slot: InputSlot, recreated: bool): Decoder {
    if d.codec.None? || !Accepts(d.phase, frame.keyFrame) then RequestedIdrOnce(d.(reported := d.reported + 1))
    else if d.pending.Some? && !frame.keyFrame then RecoveredReferences(d.(reported := d.reported + 1))
    else DrainedInput(d.(pending := Some(frame), reported := d.reported + Count(d.pending)), r, slot, recreated)
  }

  /** A delivery between `take` and `finishDelivery`. */
  function Delivered(d: Decoder, r: Reads, delivery: Delivery, created: bool, slot: InputSlot, recreated: bool)
    : Decoder
  {
    if r.entry then d
    else Admitted(Prepared(d, r, delivery, created), r, delivery.frame, slot, recreated)
  }

  function InputAvailable(d: Decoder, r: Reads, source: nat, index: int, slot: InputSlot, recreated: bool): Decoder {
    if d.codec != Some(source) || r.entry then d
    else DrainedInput(d.(slots := d.slots + [index]), r, slot, recreated)
  }

  function OutputAvailable(d: Decoder, r: Reads, source: nat, released: bool, recreated: bool): Decoder {
    if d.codec != Some(source) || r.entry || released then d else HandledCodecError(d, r, recreated)
  }

  function CodecFailed(d: Decoder, r: Reads, source: nat, recreated: bool): Decoder {
    if d.codec != Some(source) || r.entry then d else HandledCodecError(d, r, recreated)
  }

  function ClosedOnThread(d: Decoder): Decoder {
    Released(d.(phase := Closed))
  }

  class DecoderRecoveryState {
    var phase: Phase

    constructor ()
      ensures phase == Idle
    {
      phase := Idle;
    }

    method Configured(awaitingIdr: bool)
      modifies this
      ensures phase == if old(phase) == Closed then Closed else if awaitingIdr then AwaitingIdr else Running
    {
      if phase != Closed {
        phase := if awaitingIdr then AwaitingIdr else Running;
      }
    }

    method AcceptFrame(keyFrame: bool) returns (accepted: bool)
      ensures accepted == Accepts(phase, keyFrame)
    {
      if phase == Closed || phase == Idle {
        return false;
      }
      if phase == AwaitingIdr && !keyFrame {
        return false;
      }
      return true;
    }

    method CanReplacePending(pendingKeyFrame: bool, incomingKeyFrame: bool) returns (can: bool)
      ensures can == incomingKeyFrame
    {
      return incomingKeyFrame;
    }

    method OnFrameQueued(keyFrame: bool) returns (advanced: bool)
      modifies this
      ensures phase == AfterQueued(old(phase), keyFrame)
      ensures advanced <==> old(phase) != Closed && old(phase) != Idle
    {
      if phase == Closed || phase == Idle {
        return false;
      }
      if keyFrame {
        phase := Running;
      }
      return true;
    }

    method CodecError() returns (changed: bool)
      modifies this
      ensures phase == AfterError(old(phase)) && (changed <==> old(phase) != Closed)
    {
      if phase == Closed {
        return false;
      }
      phase := AwaitingIdr;
      return true;
    }

    method Close()
      modifies this
      ensures phase == Closed
    {
      phase := Closed;
    }
  }

  /** The commands of the handler thread.  Answers of MediaCodec are
      parameters: whether creating, configuring and starting an instance
      succeeds, and what its input slot turns out to be.  So are the reads `r` of
      the `closed` flag, which another thread may raise during a command. */
  class AvcDecoder {
    const inbox: VideoFrameInbox
    const recovery: DecoderRecoveryState
    var codec: Option<nat>
    var created: nat
    var pending: Option<Frame>
    var availableInputs: seq<int>
    var configuredWidth: int
    var configuredHeight: int
    var idrRequested: bool
    var offered: nat
    ghost var queued: seq<Queued>
    ghost var requests: seq<nat>
    ghost var reported: nat
    ghost var discarded: nat

    ghost function Value(): Decoder
      reads this, recovery
    {
      Decoder(recovery.phase, codec, created, pending, availableInputs, configuredWidth, configuredHeight,
              idrRequested, queued, requests, reported, discarded)
    }

    constructor ()
      ensures Value() == INITIAL && offered == 0 && inbox.Value() == Inbox([], false, 0, false)
      ensures fresh(inbox) && fresh(recovery)
    {
      inbox := new VideoFrameInbox();
      recovery := new DecoderRecoveryState();
      codec, created, pending, availableInputs := None, 0, None, [];
      configuredWidth, configuredHeight, idrRequested, offered := 0, 0, false, 0;
      queued, requests, reported, discarded := [], [], 0, 0;
    }

    /** The first half of `queue`: when `post` comes back true the caller goes
        on to post one delivery task. */
    method Queue(accessUnit: seq<bv8>, timestampUs: int, keyFrame: bool) returns (post: bool)
      modifies this`offered, inbox
      ensures (inbox.Value(), post)
           == Offered(old(inbox.Value()), Frame(old(offered), accessUnit, timestampUs, keyFrame))
      ensures offered == old(offered) + (if old(inbox.closed) then 0 else 1)
    {
      var value := Frame(offered, accessUnit, timestampUs, keyFrame);
      if !inbox.closed {
        offered := offered + 1;
      }
      post := inbox.Offer(value);
    }

    /** `configure` and `reconfigure`; the surface is opaque. */
    method Configure(r: Reads, width: int, height: int, ok: bool)
      modifies this, recovery
      ensures Value() == Configured(old(Value()), r, width, height, ok) && offered == old(offered)
    {
      hide CreatedCodec, RequestedIdrOnce;
      if r.entry {
        return;
      }
      configuredWidth, configuredHeight := width, height;
      ReleaseCodecOnThread();
      idrRequested := false;
      recovery.Configured(true);
      CreateCodecOnThread(r.create, ok);
      RequestIdrOnceOnThread();
    }

    /** The checks of `deliverNextOnThread` before `take`; `again` means the
        task was posted once more with a delay. */
    method CheckDelivery(r: Reads) returns (proceed: bool, again: bool)
      ensures again == (!r.entry && pending.Some?) && proceed == (!r.entry && pending.None?)
    {
      if r.entry {
        return false, false;
      }
      if pending.Some? {
        return false, true;
      }
      return true, false;
    }

    /** The part of `deliverNextOnThread` after `take`. */
    method Deliver(r: Reads, delivery: Delivery, createdOk: bool, slot: InputSlot, recreated: bool)
      modifies this, recovery
      ensures Value() == Delivered(old(Value()), r, delivery, createdOk, slot, recreated) && offered == old(offered)
    {
      hide Prepared, Admitted;
      if r.entry {
        return;
      }
      PrepareReferences(r, delivery, createdOk);
      AdmitFrame(r, delivery.frame, slot, recreated);
    }

    method PrepareReferences(r: Reads, delivery: Delivery, createdOk: bool)
      modifies this, recovery
      ensures Value() == Prepared(old(Value()), r, delivery, createdOk) && offered == old(offered)
    {
      hide CreatedCodec, RecoveredReferences;
      if delivery.dropped > 0 {
        Report(delivery.dropped);
        RecoverReferencesOnThread();
      }
      if codec.None? && delivery.frame.keyFrame {
        CreateCodecOnThread(r.create, createdOk);
      }
    }

    method AdmitFrame(r: Reads, frame: Frame, slot: InputSlot, recreated: bool)
      modifies this, recovery
      ensures Value() == Admitted(old(Value()), r, frame, slot, recreated) && offered == old(offered)
    {
      hide DrainedInput, RequestedIdrOnce, RecoveredReferences;
      var accepted := recovery.AcceptFrame(frame.keyFrame);
      if codec.None? || !accepted {
        Report(1);
        RequestIdrOnceOnThread();
        return;
      }
      if pending.Some? {
        var allowed := recovery.CanReplacePending(pending.value.keyFrame, frame.keyFrame);
        if !allowed {
          Report(1);
          RecoverReferencesOnThread();
          return;
        }
        pending := None;
        Report(1);
      }
      pending := Some(frame);
      DrainInputOnThread(r, slot, recreated);
    }

    method OnInputBufferAvailable(r: Reads, source: nat, index: int, slot: InputSlot, recreated: bool)
      modifies this, recovery
      ensures Value() == InputAvailable(old(Value()), r, source, index, slot, recreated) && offered == old(offered)
    {
      if codec != Some(source) || r.entry {
        return;
      }
      availableInputs := availableInputs + [index];
      DrainInputOnThread(r, slot, recreated);
    }

    method OnOutputBufferAvailable(r: Reads, source: nat, released: bool, recreated: bool)
      modifies this, recovery
      ensures Value() == OutputAvailable(old(Value()), r, source, released, recreated) && offered == old(offered)
    {
      if codec != Some(source) || r.entry {
        return;
      }
      if !released {
        HandleCodecErrorOnThread(r, recreated);
      }
    }

    method OnError(r: Reads, source: nat, recreated: bool)
      modifies this, recovery
      ensures Value() == CodecFailed(old(Value()), r, source, recreated) && offered == old(offered)
    {
      if codec != Some(source) || r.entry {
        return;
      }
      HandleCodecErrorOnThread(r, recreated);
    }

    /** The command `close` posts; before, `close` itself raised `closed` and
        closed the inbox. */
    method CloseOnThread()
      modifies this, recovery
      ensures Value() == ClosedOnThread(old(Value())) && offered == old(offered)
    {
      recovery.Close();
      ReleaseCodecOnThread();
    }

    method CreateCodecOnThread(seenClosed: bool, ok: bool)
      modifies this, recovery
      ensures Value() == CreatedCodec(old(Value()), seenClosed, ok) && offered == old(offered)
    {
      if seenClosed || configuredWidth <= 0 || configuredHeight <= 0 {
        return;
      }
      codec, created := Some(created), created + 1;
      if !ok {
        var _ := recovery.CodecError();
        ReleaseCodecOnThread();
        RequestIdrOnceOnThread();
      }
    }

    method DrainInputOnThread(r: Reads, slot: InputSlot, recreated: bool)
      modifies this, recovery
      ensures Value() == DrainedInput(old(Value()), r, slot, recreated) && offered == old(offered)
    {
      hide HandledCodecError;
      if codec.None? || pending.None? || availableInputs == [] {
        return;
      }
      var frame := pending.value;
      availableInputs := availableInputs[1..];
      if slot.Unavailable? {
        HandleCodecErrorOnThread(r, recreated);
        return;
      }
      if |frame.bytes| > slot.capacity {
        HandleCodecErrorOnThread(r, recreated);
        return;
      }
      if slot.queueThrows {
        HandleCodecErrorOnThread(r, recreated);
        return;
      }
      queued := queued + [Queued(codec.value, frame)];
      pending := None;
      var advanced := recovery.OnFrameQueued(frame.keyFrame);
      if advanced && frame.keyFrame {
        idrRequested := false;
      }
    }

    method HandleCodecErrorOnThread(r: Reads, ok: bool)
      modifies this, recovery
      ensures Value() == HandledCodecError(old(Value()), r, ok) && offered == old(offered)
    {
      hide CreatedCodec, RequestedIdrOnce;
      if r.failure {
        return;
      }
      var _ := recovery.CodecError();
      if pending.Some? {
        Report(1);
      }
      pending, availableInputs, idrRequested := None, [], false;
      ReleaseCodecOnThread();
      CreateCodecOnThread(r.recreate, ok);
      RequestIdrOnceOnThread();
    }

    method RecoverReferencesOnThread()
      modifies this, recovery
      ensures Value() == RecoveredReferences(old(Value())) && offered == old(offered)
    {
      var _ := recovery.CodecError();
      if pending.Some? {
        Report(1);
      }
      pending, idrRequested := None, false;
      RequestIdrOnceOnThread();
    }

    method RequestIdrOnceOnThread()
      modifies this
      ensures Value() == RequestedIdrOnce(old(Value())) && offered == old(offered)
    {
      if !idrRequested {
        idrRequested := true;
        requests := requests + [|queued|];
      }
    }

    method ReleaseCodecOnThread()
      modifies this
      ensures Value() == Released(old(Value())) && offered == old(offered)
    {
      discarded := discarded + Count(pending);
      pending, availableInputs, codec := None, [], None;
    }

    /** The `dropped` callback. */
    method Report(count: nat)
      modifies this`reported
      ensures reported == old(reported) + count
    {
      reported := reported + count;
    }
  }
}
