/** The objects of the host's encode pipeline.  Each method leaves its object
    in the state the corresponding function of `EncodePipeline` gives. */
module VideoPipelining {
  import opened Wrappers
  import EP = EncodePipeline
  import opened EncodeSize
  import EncodeRuns

  /** State of an event-driven transform: at most one input in flight. */
  class AsyncMftStateMachine {
    var inputRequested: bool
    var outputAvailable: bool
    var draining: bool
    var drainComplete: bool
    var endOfStream: bool
    var faulted: bool
    var restartRequested: bool
    var pendingSequence: Option<nat>

    ghost function Value(): EP.Async
      reads this
    {
      EP.Async(inputRequested, outputAvailable, draining, drainComplete, endOfStream, faulted, restartRequested,
               pendingSequence)
    }

    constructor ()
      ensures Value() == EP.STARTED
    {
      inputRequested, outputAvailable, draining, drainComplete := false, false, false, false;
      endOfStream, faulted, restartRequested := false, false, false;
      pendingSequence := None;
    }

    method StartStream()
      modifies this
      ensures Value() == EP.STARTED
    {
      inputRequested, outputAvailable, draining, drainComplete := false, false, false, false;
      endOfStream, faulted, restartRequested := false, false, false;
      pendingSequence := None;
    }

    method OnEvent(event: EP.MftEvent)
      modifies this
      ensures Value() == EP.OnEvent(old(Value()), event)
    {
      match event
      case NeedInput =>
        if !draining && !faulted {
          inputRequested := true;
        }
      case HaveOutput =>
        if !faulted {
          outputAvailable := true;
        }
      case DrainComplete => drainComplete := true;
      case EndOfStream => endOfStream := true;
      case OtherEvent =>
    }

    predicate CanAcceptInput()
      reads this
    {
      inputRequested && pendingSequence.None? && !draining && !faulted
    }

    /** Takes the input only when the transform asked for it and nothing is in flight. */
    method OnInputAccepted(sequence: nat) returns (accepted: bool)
      modifies this
      ensures accepted == EP.CanAcceptInput(old(Value()))
      ensures Value() ==
        if accepted then old(Value()).(inputRequested := false, pending := Some(sequence)) else old(Value())
    {
      if !CanAcceptInput() {
        return false;
      }
      inputRequested := false;
      pendingSequence := Some(sequence);
      return true;
    }

    method OnOutputProduced() returns (sequence: Option<nat>)
      modifies this
      ensures sequence == old(pendingSequence)
      ensures Value() == old(Value()).(outputAvailable := false, pending := None)
    {
      outputAvailable := false;
      sequence := pendingSequence;
      pendingSequence := None;
    }

    method OnOutputUnavailable()
      modifies this
      ensures Value() == old(Value()).(outputAvailable := false)
    {
      outputAvailable := false;
    }

    method MarkFatal()
      modifies this
      ensures Value() ==
        old(Value()).(inputRequested := false, outputAvailable := false, faulted := true, restartRequested := true)
    {
      inputRequested := false;
      outputAvailable := false;
      faulted := true;
      restartRequested := true;
    }

    method TakeRestartRequest() returns (requested: bool)
      modifies this
      ensures requested == old(restartRequested) && Value() == old(Value()).(restartRequested := false)
    {
      requested := restartRequested;
      restartRequested := false;
    }
  }

  /** The record of the one encode in flight. */
  class PendingEncodeTelemetryState {
    var pending: Option<EP.PendingRecord>

    constructor ()
      ensures pending == None
    {
      pending := None;
    }

    method Begin(record: EP.PendingRecord) returns (begun: bool)
      modifies this
      ensures begun == old(pending).None?
      ensures pending == if begun then Some(record) else old(pending)
    {
      if pending.Some? {
        return false;
      }
      pending := Some(record);
      return true;
    }

    method Clear()
      modifies this
      ensures pending == None
    {
      pending := None;
    }

    /** Uses the record up; stamps and reports the unit only when it is the unit's own. */
    method Complete(unit: EP.AccessUnit, completedAt: int)
      returns (completed: bool, stamped: EP.AccessUnit, telemetry: Option<EP.EncodeTelemetry>)
      modifies this
      ensures pending == None
      ensures completed == (old(pending).Some? && old(pending).value.sequence == unit.sequence)
      ensures telemetry == if completed then Some(EP.Sampled(old(pending).value, stamped)) else None
      ensures !completed ==> stamped == unit
      ensures completed ==>
        stamped == unit.(acquiredAt := old(pending).value.acquiredAt,
                         encodedAt := if unit.encodedAt == 0 then completedAt else unit.encodedAt)
    {
      if pending.None? {
        return false, unit, None;
      }
      var record := pending.value;
      pending := None;
      if record.sequence != unit.sequence {
        return false, unit, None;
      }
      stamped := unit.(acquiredAt := record.acquiredAt);
      if stamped.encodedAt == 0 {
        stamped := stamped.(encodedAt := completedAt);
      }
      telemetry := Some(EP.EncodeTelemetry(
        stamped.sequence, record.acquiredAt, stamped.encodedAt, record.conversion,
        EP.Micros(stamped.encodedAt - record.encodeStarted), EP.Micros(stamped.encodedAt - record.acquiredAt),
        stamped.isIdr, EP.Micros(record.encodeStarted - record.acquiredAt)));
      return true, stamped, telemetry;
    }
  }

  /** One slot; a newer item replaces the one waiting. */
  class LatestFrameQueue<T> {
    var item: Option<T>
    var replacedCount: nat

    constructor ()
      ensures item == None && replacedCount == 0
    {
      item := None;
      replacedCount := 0;
    }

    method Push(value: T)
      modifies this
      ensures item == Some(value)
      ensures replacedCount == old(replacedCount) + if old(item).Some? then 1 else 0
    {
      if item.Some? {
        replacedCount := replacedCount + 1;
      }
      item := Some(value);
    }

    method PushIfEmpty(value: T) returns (pushed: bool)
      modifies this
      ensures pushed == old(item).None? && replacedCount == old(replacedCount)
      ensures item == if pushed then Some(value) else old(item)
    {
      if item.Some? {
        return false;
      }
      item := Some(value);
      return true;
    }

    method TryPop() returns (value: Option<T>)
      modifies this
      ensures value == old(item) && item == None && replacedCount == old(replacedCount)
    {
      value := item;
      item := None;
    }
  }

  class HardwareH264Encoder {
    var initialized: bool
    var asynchronous: bool
    const asyncState: AsyncMftStateMachine
    var inputSampleInFlight: bool
    var fatalRestartRequested: bool
    var lastAsyncFatal: EP.Hr

    ghost function Value(): EP.Encoder
      reads this, asyncState
    {
      EP.Encoder(initialized, asynchronous, asyncState.Value(), inputSampleInFlight, fatalRestartRequested,
                 lastAsyncFatal)
    }

    constructor ()
      ensures Value() == EP.SHUT_DOWN && fresh(asyncState)
    {
      initialized, asynchronous, inputSampleInFlight, fatalRestartRequested := false, false, false, false;
      lastAsyncFatal := EP.Success;
      asyncState := new AsyncMftStateMachine();
    }

    method Shutdown()
      modifies this, asyncState
      ensures Value() == EP.SHUT_DOWN
    {
      inputSampleInFlight := false;
      initialized := false;
      asyncState.StartStream();
      asynchronous := false;
      fatalRestartRequested := false;
      lastAsyncFatal := EP.Success;
    }

    method MarkAsyncFatal(failure: EP.Fault) returns (hr: EP.Hr)
      modifies this, asyncState
      ensures hr == failure && Value() == EP.MarkFatal(old(Value()), failure)
    {
      asyncState.MarkFatal();
      fatalRestartRequested := true;
      lastAsyncFatal := failure;
      return failure;
    }

    /** Drains the event queue until it is empty or fails. */
    method PumpAsyncEvents(pump: EP.Pump) returns (hr: EP.Hr)
      modifies this, asyncState
      ensures (Value(), hr) == EP.Pumped(old(Value()), pump)
    {
      if !asynchronous {
        return EP.Success;
      }
      var seen := 0;
      while seen < |pump.events|
        invariant seen <= |pump.events|
        invariant EP.OnEvents(asyncState.Value(), pump.events[seen..])
               == EP.OnEvents(old(asyncState.Value()), pump.events)
        invariant Value() == old(Value()).(async := asyncState.Value())
      {
        asyncState.OnEvent(pump.events[seen]);
        seen := seen + 1;
      }
      if pump.failure.Some? {
        hr := MarkAsyncFatal(pump.failure.value);
        return;
      }
      return EP.Success;
    }

    method ProcessAsyncOutput(answer: EP.Output) returns (hr: EP.Hr, output: EP.AccessUnit)
      modifies this, asyncState
      ensures (Value(), hr, output) == EP.AsyncOutput(old(Value()), answer)
    {
      output := EP.NO_UNIT;
      if !asyncState.outputAvailable {
        return EP.SFalse, output;
      }
      var sequence := asyncState.pendingSequence;
      if sequence.None? {
        hr := MarkAsyncFatal(EP.E_UNEXPECTED);
        return;
      }
      if answer.Nothing? || answer == EP.OutputFails(EP.NeedMoreInput) {
        asyncState.OnOutputUnavailable();
        return EP.SFalse, output;
      }
      if answer.OutputFails? {
        inputSampleInFlight := false;
        hr := MarkAsyncFatal(answer.fault);
        return;
      }
      var produced := asyncState.OnOutputProduced();
      inputSampleInFlight := false;
      return EP.Success, EP.AccessUnit(answer.bytes, sequence.value, answer.idr, 0, answer.at);
    }

    method Poll(pump: EP.Pump, answer: EP.Output) returns (hr: EP.Hr, output: EP.AccessUnit)
      modifies this, asyncState
      ensures (Value(), hr, output) == EP.Polled(old(Value()), pump, answer)
    {
      output := EP.NO_UNIT;
      if !initialized {
        return EP.NOT_INITIALIZED, output;
      }
      if !asynchronous {
        return EP.SFalse, output;
      }
      if asyncState.faulted {
        return lastAsyncFatal, output;
      }
      hr := PumpAsyncEvents(pump);
      if EP.Fails(hr) {
        return;
      }
      hr, output := ProcessAsyncOutput(answer);
    }

    predicate CanAcceptFrame()
      reads this, asyncState
      ensures CanAcceptFrame() == EP.CanAcceptFrame(Value())
    {
      initialized && (!asynchronous || asyncState.CanAcceptInput())
    }

    method EncodeAsync(sequence: nat, x: EP.Encoding) returns (hr: EP.Hr, output: EP.AccessUnit)
      modifies this, asyncState
      ensures (Value(), hr, output) == EP.AsyncEncoded(old(Value()), sequence, x)
    {
      hide EP.Pumped, EP.Polled;
      output := EP.NO_UNIT;
      hr := PumpAsyncEvents(x.before);
      if EP.Fails(hr) {
        return;
      }
      if !asyncState.CanAcceptInput() || inputSampleInFlight {
        return EP.NotAccepting, output;
      }
      if x.prepared.Some? {
        return x.prepared.value, output;
      }
      if x.input.Some? {
        inputSampleInFlight := false;
        if x.input.value != EP.NotAccepting {
          hr := MarkAsyncFatal(x.input.value);
          return;
        }
        return x.input.value, output;
      }
      var accepted := asyncState.OnInputAccepted(sequence);
      inputSampleInFlight := true;
      hr, output := Poll(x.after, x.output);
    }

    method EncodeSync(sequence: nat, x: EP.Encoding) returns (hr: EP.Hr, output: EP.AccessUnit)
      modifies this
      ensures (Value(), hr, output) == EP.SyncEncoded(old(Value()), sequence, x)
    {
      output := EP.NO_UNIT;
      if x.prepared.Some? {
        return x.prepared.value, output;
      }
      if x.input.Some? {
        inputSampleInFlight := false;
        fatalRestartRequested := true;
        return x.input.value, output;
      }
      match x.output
      case Nothing => return EP.SFalse, output;
      case OutputFails(fault) =>
        if fault != EP.NeedMoreInput {
          inputSampleInFlight := false;
          fatalRestartRequested := true;
        }
        return fault, output;
      case Produced(bytes, idr, at) => return EP.Success, EP.AccessUnit(bytes, sequence, idr, 0, at);
    }

    method Encode(sequence: nat, x: EP.Encoding) returns (hr: EP.Hr, output: EP.AccessUnit)
      modifies this, asyncState
      ensures (Value(), hr, output) == EP.Encoded(old(Value()), sequence, x)
    {
      hide EP.AsyncEncoded, EP.SyncEncoded;
      if x.rejected.Some? {
        return x.rejected.value, EP.NO_UNIT;
      }
      if asynchronous {
        hr, output := EncodeAsync(sequence, x);
      } else {
        hr, output := EncodeSync(sequence, x);
      }
    }

    method TakeFatalRestartRequest() returns (requested: bool)
      modifies this, asyncState
      ensures (Value(), requested) == EP.RestartTaken(old(Value()))
    {
      if asynchronous {
        var _ := asyncState.TakeRestartRequest();
      }
      requested := fatalRestartRequested;
      fatalRestartRequested := false;
    }

    /** Starts from a shut-down encoder; the events are those pumped on the way. */
    method Initialize(setup: EP.Setup) returns (hr: EP.Hr)
      modifies this, asyncState
      ensures (Value(), hr) == EP.Initialized(setup)
    {
      Shutdown();
      if setup.SetupFails? {
        return setup.fault;
      }
      initialized := true;
      asynchronous := setup.asynchronous;
      hr := PumpAsyncEvents(EP.Pump(setup.events, None));
    }

    method ResetAndRequestIdr(setup: EP.Setup) returns (hr: EP.Hr)
      modifies this, asyncState
      ensures (Value(), hr) == EP.ResetAndIdrRequested(old(Value()), setup)
    {
      if !initialized {
        return EP.NOT_INITIALIZED;
      }
      if asynchronous {
        Shutdown();
        hr := Initialize(setup);
        return;
      }
      inputSampleInFlight := false;
      if setup.SetupFails? {
        return setup.fault;
      }
      fatalRestartRequested := false;
      return EP.Success;
    }
  }

  class VideoPipeline {
    const encoder: HardwareH264Encoder
    const pendingEncode: PendingEncodeTelemetryState
    const capturedFrames: LatestFrameQueue<EP.Captured>
    var encodeSize: Size
    var policyResetPending: bool
    var acquired: nat
    ghost var times: seq<int>
    ghost var returned: seq<EP.AccessUnit>
    ghost var mismatches: nat

    ghost const Repr: set<object> := {this, encoder, encoder.asyncState, pendingEncode, capturedFrames}

    ghost predicate Valid()
      reads this
    {
      acquired == |times|
    }

    ghost function Value(): EP.Pipeline
      reads this, encoder, encoder.asyncState, pendingEncode, capturedFrames
    {
      EP.Pipeline(encoder.Value(), pendingEncode.pending, capturedFrames.item, capturedFrames.replacedCount,
                  encodeSize, policyResetPending, times, returned, mismatches)
    }

    constructor ()
      ensures Valid() && Value() == EP.FIRST && fresh(Repr)
    {
      encoder := new HardwareH264Encoder();
      pendingEncode := new PendingEncodeTelemetryState();
      capturedFrames := new LatestFrameQueue<EP.Captured>();
      encodeSize := Size(0, 0);
      policyResetPending := false;
      acquired := 0;
      times, returned, mismatches := [], [], 0;
    }

    method Stop()
      requires Valid()
      modifies Repr
      ensures Valid() && Value() == EP.Stopped(old(Value()))
    {
      pendingEncode.Clear();
      encoder.Shutdown();
      var _ := capturedFrames.TryPop();
      encodeSize := Size(0, 0);
      policyResetPending := false;
      acquired := 0;
      times, returned := [], [];
    }

    /** Opening the capture and the resolution policy are not part of this state. */
    method Start()
      requires Valid()
      modifies Repr
      ensures Valid() && Value() == EP.Stopped(old(Value()))
    {
      Stop();
      policyResetPending := false;
    }

    method ResetEncoderAndRequestIdr(setup: EP.Setup) returns (hr: EP.Hr)
      requires Valid()
      modifies encoder, encoder.asyncState, pendingEncode
      ensures (Value(), hr) == EP.Reset(old(Value()), setup)
    {
      hide EP.ResetAndIdrRequested;
      pendingEncode.Clear();
      hr := encoder.ResetAndRequestIdr(setup);
    }

    method CompleteEncodedFrame(unit: EP.AccessUnit, now: int, policyWants: bool)
      returns (hr: EP.Hr, output: EP.AccessUnit)
      requires Valid()
      modifies this, pendingEncode
      ensures Valid() && (Value(), hr, output) == EP.Completed(old(Value()), unit, now, policyWants)
    {
      var completed;
      var sample;
      completed, output, sample := pendingEncode.Complete(unit, now);
      if !completed {
        mismatches := mismatches + 1;
        return EP.E_UNEXPECTED, output;
      }
      if policyWants {
        policyResetPending := true;
      }
      returned := returned + [output];
      return EP.Success, output;
    }

    method CompleteOrReset(unit: EP.AccessUnit, t: EP.Turn) returns (hr: EP.Hr, output: EP.AccessUnit)
      requires Valid()
      modifies Repr
      ensures Valid() && (Value(), hr, output) == EP.CompletedOrReset(old(Value()), unit, t)
    {
      hide EP.Completed, EP.Reset;
      var completion;
      completion, output := CompleteEncodedFrame(unit, t.now, t.policyWants);
      if !EP.Fails(completion) {
        return EP.Success, output;
      }
      var reset := ResetEncoderAndRequestIdr(t.recovery);
      return if EP.Fails(reset) then reset else completion, output;
    }

    method ResetUnmatched(t: EP.Turn) returns (hr: EP.Hr, output: EP.AccessUnit)
      requires Valid()
      modifies Repr
      ensures Valid() && (Value(), hr, output) == EP.Unmatched(old(Value()), t)
    {
      hide EP.Reset;
      pendingEncode.Clear();
      mismatches := mismatches + 1;
      var reset := ResetEncoderAndRequestIdr(t.recovery);
      return if EP.Fails(reset) then reset else EP.E_UNEXPECTED, EP.NO_UNIT;
    }

    method RecoverFrom(failure: EP.Hr, t: EP.Turn) returns (hr: EP.Hr, output: EP.AccessUnit)
      requires Valid()
      modifies Repr
      ensures Valid() && (Value(), hr, output) == EP.FailedEncoder(old(Value()), failure, t)
    {
      hide EP.Reset, EP.RestartTaken;
      var restart := encoder.TakeFatalRestartRequest();
      pendingEncode.Clear();
      if !restart {
        return failure, EP.NO_UNIT;
      }
      var reset := ResetEncoderAndRequestIdr(t.recovery);
      return if EP.Fails(reset) then reset else failure, EP.NO_UNIT;
    }

    method CaptureOnce(answer: EP.Capture) returns (hr: EP.Hr)
      requires Valid()
      modifies Repr
      ensures Valid() && (Value(), hr) == EP.CapturedOnce(old(Value()), answer)
    {
      if (encoder.asynchronous && encoder.asyncState.pendingSequence.Some?) || pendingEncode.pending.Some? {
        return EP.SFalse;
      }
      match answer
      case NoFrame => return EP.SFalse;
      case CaptureFails(fault) => return fault;
      case FrameLost(at, fault) =>
        acquired := acquired + 1;
        times := times + [at];
        return fault;
      case FrameReady(at, size) =>
        acquired := acquired + 1;
        times := times + [at];
        capturedFrames.Push(EP.Captured(acquired, at, size));
        return EP.Success;
    }

    method PrepareEncoder(frame: EP.Captured, t: EP.Turn) returns (hr: EP.Hr)
      requires Valid() && t.native.Some?
      modifies Repr
      ensures Valid() && (Value(), hr) == EP.Prepared(old(Value()), frame, t)
    {
      hide EP.Reset, EP.Initialized;
      if !encoder.initialized || t.native.value != encodeSize {
        pendingEncode.Clear();
        encoder.Shutdown();
        if !t.device {
          return EP.INVALID_HANDLE;
        }
        if t.converter.Some? {
          return t.converter.value;
        }
        hr := encoder.Initialize(t.setup);
        if EP.Fails(hr) {
          var _ := capturedFrames.PushIfEmpty(frame);
          return;
        }
        encodeSize := t.native.value;
        policyResetPending := false;
        hr := EP.Success;
      } else if policyResetPending {
        hr := ResetEncoderAndRequestIdr(t.policySetup);
        if EP.Fails(hr) {
          return;
        }
        policyResetPending := false;
        hr := EP.Success;
      } else {
        hr := EP.Success;
      }
    }

    method SubmitFrame(frame: EP.Captured, t: EP.Turn) returns (hr: EP.Hr, output: EP.AccessUnit)
      requires Valid()
      modifies Repr
      ensures Valid() && (Value(), hr, output) == EP.Submitted(old(Value()), frame, t)
    {
      hide EP.Encoded, EP.Unmatched, EP.FailedEncoder, EP.CompletedOrReset;
      var record := EP.PendingRecord(frame.sequence, frame.acquiredAt, t.conversion, t.encodeStarted);
      var unit;
      hr, unit := encoder.Encode(frame.sequence, t.encoding);
      if hr == EP.SFalse {
        if encoder.asynchronous && encoder.asyncState.pendingSequence.Some? {
          var accepted := encoder.asyncState.pendingSequence;
          if accepted.value != record.sequence {
            hr, output := ResetUnmatched(t);
            return;
          }
          var begun := pendingEncode.Begin(record);
          if !begun {
            hr, output := ResetUnmatched(t);
            return;
          }
        }
        return EP.SFalse, EP.NO_UNIT;
      }
      if hr == EP.NotAccepting {
        var _ := capturedFrames.PushIfEmpty(frame);
        return EP.SFalse, EP.NO_UNIT;
      }
      if EP.Fails(hr) {
        hr, output := RecoverFrom(hr, t);
        return;
      }
      var begun := pendingEncode.Begin(record);
      if !begun {
        hr, output := ResetUnmatched(t);
        return;
      }
      hr, output := CompleteOrReset(unit, t);
    }

    method EncodeFromQueue(t: EP.Turn) returns (hr: EP.Hr, output: EP.AccessUnit)
      requires Valid()
      modifies Repr
      ensures Valid() && (Value(), hr, output) == EP.EncodedFromQueue(old(Value()), t)
    {
      hide EP.Prepared, EP.Submitted;
      output := EP.NO_UNIT;
      var frame := capturedFrames.TryPop();
      if frame.None? {
        return EP.SFalse, output;
      }
      if t.native.None? {
        return EP.INVALID_ARGUMENT, output;
      }
      hr := PrepareEncoder(frame.value, t);
      if EP.Fails(hr) {
        return;
      }
      if !encoder.CanAcceptFrame() {
        var _ := capturedFrames.PushIfEmpty(frame.value);
        return EP.SFalse, output;
      }
      if t.convert.Some? {
        return t.convert.value, output;
      }
      hr, output := SubmitFrame(frame.value, t);
    }

    method EncodeLatest(t: EP.Turn) returns (hr: EP.Hr, output: EP.AccessUnit)
      requires Valid()
      modifies Repr
      ensures Valid() && (Value(), hr, output) == EP.EncodedLatest(old(Value()), t)
    {
      hide EP.Polled, EP.CompletedOrReset, EP.FailedEncoder, EP.EncodedFromQueue;
      if encoder.initialized {
        var poll, unit := encoder.Poll(t.polled, t.output);
        if poll == EP.Success {
          hr, output := CompleteOrReset(unit, t);
          return;
        }
        if EP.Fails(poll) {
          hr, output := RecoverFrom(poll, t);
          return;
        }
        if !encoder.CanAcceptFrame() {
          return EP.SFalse, EP.NO_UNIT;
        }
      }
      hr, output := EncodeFromQueue(t);
    }

    method NotifyTransportWouldBlock(requests: bool, policyWants: bool, setup: EP.Setup)
      returns (action: EP.TransportAction)
      requires Valid()
      modifies Repr
      ensures Valid() && (Value(), action) == EP.Blocked(old(Value()), requests, policyWants, setup)
    {
      hide EP.Reset;
      action := if requests then EP.RequestStreamReset else EP.Hold;
      if requests {
        var hr := ResetEncoderAndRequestIdr(setup);
        if EP.Fails(hr) {
          return EP.RequestStreamReset;
        }
      }
      if policyWants {
        policyResetPending := true;
      }
      if policyWants && !requests && encoder.initialized {
        var hr := ResetEncoderAndRequestIdr(setup);
        if EP.Fails(hr) {
          return EP.RequestStreamReset;
        }
      }
    }
  }

  /** Any calls on the pipeline object leave it where the run of the calls ends. */
  method Drive(calls: seq<EncodeRuns.Call>) returns (pipeline: VideoPipeline)
    ensures fresh(pipeline) && fresh(pipeline.Repr) && pipeline.Valid() && pipeline.Value() == EncodeRuns.Run(calls)
  {
    hide EncodeRuns.Next, EncodeRuns.Run;
    pipeline := new VideoPipeline();
    EncodeRuns.RunOfNothing();
    for i := 0 to |calls|
      invariant fresh(pipeline) && fresh(pipeline.Repr) && pipeline.Valid()
      invariant pipeline.Value() == EncodeRuns.Run(calls[..i])
    {
      EncodeRuns.RunOn(calls[..i], calls[i]);
      assert calls[..i] + [calls[i]] == calls[..i + 1];
      Advance(pipeline, calls[i]);
    }
    assert calls[..|calls|] == calls;
  }

  method Advance(pipeline: VideoPipeline, call: EncodeRuns.Call)
    requires pipeline.Valid()
    modifies pipeline.Repr
    ensures pipeline.Valid() && pipeline.Value() == EncodeRuns.Next(old(pipeline.Value()), call)
  {
    hide EP.Stopped, EP.CapturedOnce, EP.EncodedLatest, EP.Blocked;
    match call
    case Start => pipeline.Start();
    case Stop => pipeline.Stop();
    case CaptureOnce(answer) => var _ := pipeline.CaptureOnce(answer);
    case EncodeLatest(turn) => var _, _ := pipeline.EncodeLatest(turn);
    case NotifyWouldBlock(requests, policyWants, setup) =>
      var _ := pipeline.NotifyTransportWouldBlock(requests, policyWants, setup);
  }
}
