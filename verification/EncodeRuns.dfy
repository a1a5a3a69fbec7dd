/** Whatever the transform does, the encoder and the telemetry record agree
    between calls, and every access unit comes out with its own capture time. */
module EncodeRuns {
  import opened Wrappers
  import opened EncodePipeline
  import opened EncodeSize

  datatype Call =
    | Start
    | Stop
    | CaptureOnce(answer: Capture)
    | EncodeLatest(turn: Turn)
    | NotifyWouldBlock(requests: bool, policyWants: bool, setup: Setup)

  function Next(p: Pipeline, call: Call): Pipeline {
    match call
    case Start => Stopped(p)
    case Stop => Stopped(p)
    case CaptureOnce(answer) => CapturedOnce(p, answer).0
    case EncodeLatest(turn) => EncodedLatest(p, turn).0
    case NotifyWouldBlock(requests, policyWants, setup) => Blocked(p, requests, policyWants, setup).0
  }

  function Run(calls: seq<Call>): Pipeline {
    if calls == [] then FIRST else Next(Run(calls[..|calls| - 1]), calls[|calls| - 1])
  }

  lemma RunOfNothing()
    ensures Run([]) == FIRST
  {
  }

  lemma RunOn(calls: seq<Call>, call: Call)
    ensures Run(calls + [call]) == Next(Run(calls), call)
  {
    assert (calls + [call])[..|calls|] == calls;
  }

  /** The sequence number of the encode in flight, as each side knows it. */
  function InEncoder(e: Encoder): Option<nat> {
    if e.asynchronous then e.async.pending else None
  }

  function InRecord(p: Pipeline): Option<nat> {
    if p.pending.Some? then Some(p.pending.value.sequence) else None
  }

  /** What holds of the encoder between its own calls. */
  ghost predicate EncoderHolds(e: Encoder) {
    && !e.async.draining
    && (!e.initialized ==> e == SHUT_DOWN)
    && (!e.asynchronous ==> e.async == STARTED && !e.inFlight)
    && (e.async.faulted ==> e.fatalRestart && Fails(e.lastFatal))
    && (e.asynchronous && e.fatalRestart ==> e.async.faulted)
    && (!e.async.faulted ==> (e.inFlight <==> e.async.pending.Some?))
  }

  /** Non-faulted: both sides know the same encode in flight, or none.  A fault
      survives a call only under the code the pipeline takes for "not accepting". */
  ghost predicate Agrees(p: Pipeline) {
    && EncoderHolds(p.encoder)
    && (if p.encoder.async.faulted then p.pending.None? && p.encoder.lastFatal == NotAccepting
        else InEncoder(p.encoder) == InRecord(p))
  }

  function LastReturned(p: Pipeline): nat {
    if p.returned == [] then 0 else p.returned[|p.returned| - 1].sequence
  }

  function LastSubmitted(p: Pipeline): nat {
    if p.pending.Some? then p.pending.value.sequence else LastReturned(p)
  }

  /** `sequence` was captured at `at`. */
  ghost predicate CapturedAt(times: seq<int>, sequence: nat, at: int) {
    1 <= sequence <= |times| && times[sequence - 1] == at
  }

  ghost predicate InOrder(p: Pipeline) {
    && LastSubmitted(p) <= |p.times|
    && (p.pending.Some? ==>
          && p.pending.value.sequence > LastReturned(p)
          && CapturedAt(p.times, p.pending.value.sequence, p.pending.value.acquiredAt))
    && (p.queue.Some? ==>
          && p.queue.value.sequence > LastSubmitted(p)
          && CapturedAt(p.times, p.queue.value.sequence, p.queue.value.acquiredAt))
    && (forall k | 0 <= k < |p.returned| :: CapturedAt(p.times, p.returned[k].sequence, p.returned[k].acquiredAt))
    && (forall i, j | 0 <= i < j < |p.returned| :: p.returned[i].sequence < p.returned[j].sequence)
  }

  ghost predicate Holds(p: Pipeline) {
    Agrees(p) && InOrder(p) && p.mismatches == 0
  }

  lemma EventKeeps(a: Async, event: MftEvent)
    ensures var b := OnEvent(a, event);
            b.pending == a.pending && b.faulted == a.faulted && b.draining == a.draining
            && (a.inputRequested ==> b.inputRequested)
  {
  }

  lemma {:induction false} EventsKeep(a: Async, events: seq<MftEvent>)
    ensures var b := OnEvents(a, events);
            b.pending == a.pending && b.faulted == a.faulted && b.draining == a.draining
            && (a.inputRequested ==> b.inputRequested)
    decreases |events|
  {
    hide OnEvent;
    if events != [] {
      EventKeeps(a, events[0]);
      EventsKeep(OnEvent(a, events[0]), events[1..]);
    }
  }

  lemma PumpKeeps(e: Encoder, pump: Pump)
    requires EncoderHolds(e)
    ensures var (f, hr) := Pumped(e, pump);
            && EncoderHolds(f) && InEncoder(f) == InEncoder(e)
            && f.initialized == e.initialized && f.asynchronous == e.asynchronous
            && (if Fails(hr) then f.async.faulted && f.lastFatal == hr else f.async.faulted == e.async.faulted)
  {
    EventsKeep(e.async, pump.events);
  }

  /** A poll either leaves the encode in flight alone, hands it out, or faults. */
  lemma PollKeeps(e: Encoder, pump: Pump, output: Output)
    requires EncoderHolds(e)
    ensures var (f, hr, unit) := Polled(e, pump, output);
            && EncoderHolds(f) && f.initialized == e.initialized && f.asynchronous == e.asynchronous
            && (hr == SFalse ==> InEncoder(f) == InEncoder(e) && f.async.faulted == e.async.faulted == false)
            && (hr == Success ==>
                  InEncoder(e) == Some(unit.sequence) && InEncoder(f) == None && !f.async.faulted && !e.async.faulted)
            && (Fails(hr) && e.initialized ==> f.async.faulted && f.fatalRestart && f.lastFatal == hr)
  {
    PumpKeeps(e, pump);
  }

  lemma SetupKeeps(setup: Setup)
    ensures var (e, hr) := Initialized(setup);
            EncoderHolds(e) && InEncoder(e) == None && !e.async.faulted && (!Fails(hr) ==> e.initialized)
  {
    if setup.Fresh? {
      EventsKeep(STARTED, setup.events);
    }
  }

  /** After a reset nothing is in flight on either side. */
  lemma ResetKeeps(p: Pipeline, setup: Setup)
    requires EncoderHolds(p.encoder) && InOrder(p.(pending := None)) && p.mismatches == 0
    ensures var (q, hr) := Reset(p, setup);
            && Holds(q) && q.pending.None? && q == p.(encoder := q.encoder, pending := None)
            && !q.encoder.async.faulted && (!Fails(hr) ==> q.encoder.initialized)
  {
    SetupKeeps(setup);
  }

  lemma PolicyKeeps(p: Pipeline, policyReset: bool)
    requires Holds(p)
    ensures Holds(p.(policyReset := policyReset))
  {
  }

  lemma SoundResetKeeps(p: Pipeline, setup: Setup)
    requires Holds(p)
    ensures var (q, hr) := Reset(p, setup);
            && Holds(q) && q.pending.None? && q == p.(encoder := q.encoder, pending := None)
            && !q.encoder.async.faulted && (!Fails(hr) ==> q.encoder.initialized)
  {
    hide Reset, CapturedAt;
    ResetKeeps(p, setup);
  }

  /** A unit that matches its record completes it. */
  lemma CompleteKeeps(p: Pipeline, unit: AccessUnit, t: Turn)
    requires EncoderHolds(p.encoder) && !p.encoder.async.faulted && InEncoder(p.encoder) == None
    requires InOrder(p) && p.mismatches == 0 && InRecord(p) == Some(unit.sequence)
    ensures var (q, hr, out) := CompletedOrReset(p, unit, t);
            && Holds(q) && hr == Success && q.times == p.times
            && q.returned == p.returned + [out] && out.sequence == unit.sequence
            && CapturedAt(p.times, out.sequence, out.acquiredAt) && out.sequence > LastReturned(p)
  {
    var q := CompletedOrReset(p, unit, t).0;
    forall i, j | 0 <= i < j < |q.returned| ensures q.returned[i].sequence < q.returned[j].sequence {
      if j == |p.returned| && i < j - 1 {
        assert p.returned[i].sequence < p.returned[j - 1].sequence;
      }
    }
  }

  lemma FailureKeeps(p: Pipeline, hr: Hr, t: Turn)
    requires EncoderHolds(p.encoder) && InOrder(p) && p.mismatches == 0 && Fails(hr)
    requires !p.encoder.async.faulted ==> InEncoder(p.encoder) == None
    ensures var (q, out, _) := FailedEncoder(p, hr, t);
            Holds(q) && Fails(out) && q.returned == p.returned && q.times == p.times
  {
    var cleared := p.(encoder := RestartTaken(p.encoder).0, pending := None);
    if p.encoder.fatalRestart {
      SetupKeeps(t.recovery);
    }
  }

  lemma EncodeKeeps(e: Encoder, sequence: nat, x: Encoding)
    requires EncoderHolds(e) && CanAcceptFrame(e) && InEncoder(e) == None && !e.async.faulted
    ensures var (f, hr, unit) := Encoded(e, sequence, x);
            && EncoderHolds(f) && f.asynchronous == e.asynchronous
            && (hr == SFalse ==> !f.async.faulted && InEncoder(f) == if e.asynchronous then Some(sequence) else None)
            && (hr == Success ==> !f.async.faulted && InEncoder(f) == None && unit.sequence == sequence)
            && (Fails(hr) ==> if f.async.faulted then f.lastFatal == hr else InEncoder(f) == None)
  {
    if x.rejected.None? && e.asynchronous {
      PumpKeeps(e, x.before);
      var (ready, hr) := Pumped(e, x.before);
      if !Fails(hr) && CanAcceptInput(ready.async) && x.prepared.None? && x.input.None? {
        var accepted := ready.async.(inputRequested := false, pending := Some(sequence));
        PollKeeps(ready.(async := accepted, inFlight := true), x.after, x.output);
      }
    }
  }

  /** A frame taken off the queue that may still be encoded. */
  ghost predicate MayEncode(p: Pipeline, frame: Captured) {
    p.queue.None? && frame.sequence > LastSubmitted(p) && CapturedAt(p.times, frame.sequence, frame.acquiredAt)
  }

  lemma PutBackKeeps(p: Pipeline, frame: Captured)
    requires Holds(p) && MayEncode(p, frame)
    ensures Holds(PushedIfEmpty(p, frame))
  {
  }

  /** Nothing pending on either side, with a fresh or an empty encoder. */
  lemma RestartKeeps(p: Pipeline, frame: Captured, setup: Setup)
    requires Holds(p) && MayEncode(p, frame) && p.pending.None?
    ensures var bare := p.(pending := None, encoder := SHUT_DOWN);
            && Holds(bare) && MayEncode(bare, frame)
            && Holds(bare.(encoder := Initialized(setup).0)) && MayEncode(bare.(encoder := Initialized(setup).0), frame)
            && !Initialized(setup).0.async.faulted
  {
    hide CapturedAt, Initialized;
    SetupKeeps(setup);
  }

  lemma SizeKeeps(p: Pipeline, frame: Captured, size: Size, policyReset: bool)
    requires Holds(p) && MayEncode(p, frame)
    ensures var q := p.(encodeSize := size, policyReset := policyReset); Holds(q) && MayEncode(q, frame)
  {
  }

  lemma PrepareKeeps(p: Pipeline, frame: Captured, t: Turn)
    requires Holds(p) && MayEncode(p, frame) && t.native.Some? && p.pending.None? && !p.encoder.async.faulted
    ensures var (q, hr) := Prepared(p, frame, t);
            && Holds(q) && q.pending.None? && q.returned == p.returned && q.times == p.times && !q.encoder.async.faulted
            && (!Fails(hr) ==> MayEncode(q, frame))
  {
    hide Holds, Reset, Initialized;
    if !p.encoder.initialized || t.native.value != p.encodeSize {
      RestartKeeps(p, frame, t.setup);
      var renewed := p.(pending := None, encoder := Initialized(t.setup).0);
      PutBackKeeps(renewed, frame);
      SizeKeeps(renewed, frame, t.native.value, false);
    } else if p.policyReset {
      SoundResetKeeps(p, t.policySetup);
      var reset := Reset(p, t.policySetup).0;
      SizeKeeps(reset, frame, reset.encodeSize, false);
    }
  }

  lemma SubmitKeeps(p: Pipeline, frame: Captured, t: Turn)
    requires Holds(p) && MayEncode(p, frame) && p.pending.None? && CanAcceptFrame(p.encoder) && !p.encoder.async.faulted
    ensures var (q, hr, out) := Submitted(p, frame, t);
            Holds(q) && Delivers(p, q, hr, out)
  {
    EncodeKeeps(p.encoder, frame.sequence, t.encoding);
    var (encoder, hr, unit) := Encoded(p.encoder, frame.sequence, t.encoding);
    var fed := p.(encoder := encoder);
    var record := PendingRecord(frame.sequence, frame.acquiredAt, t.conversion, t.encodeStarted);
    if hr == NotAccepting {
      PutBackKeeps(fed, frame);
    } else if Fails(hr) {
      FailureKeeps(fed, hr, t);
    } else if hr == Success {
      CompleteKeeps(fed.(pending := Some(record)), unit, t);
    }
  }

  /** A call hands out a unit exactly when it succeeds, with the time its frame
      was captured, and after every unit handed out before. */
  ghost predicate Delivers(p: Pipeline, q: Pipeline, hr: Hr, unit: AccessUnit) {
    && q.times == p.times
    && (hr != Success ==> q.returned == p.returned)
    && (hr == Success ==>
          && q.returned == p.returned + [unit]
          && CapturedAt(p.times, unit.sequence, unit.acquiredAt)
          && unit.sequence > LastReturned(p))
  }

  lemma PopKeeps(p: Pipeline)
    requires Holds(p) && p.queue.Some?
    ensures Holds(p.(queue := None)) && MayEncode(p.(queue := None), p.queue.value)
  {
  }

  lemma IdleWhenAccepting(p: Pipeline)
    requires Holds(p) && (p.encoder.initialized ==> CanAcceptFrame(p.encoder))
    ensures p.pending.None? && !p.encoder.async.faulted
  {
  }

  lemma QueueKeeps(p: Pipeline, t: Turn)
    requires Holds(p) && (p.encoder.initialized ==> CanAcceptFrame(p.encoder))
    ensures var (q, hr, out) := EncodedFromQueue(p, t);
            Holds(q) && Delivers(p, q, hr, out)
  {
    hide Holds, MayEncode, Prepared, Submitted;
    IdleWhenAccepting(p);
    if p.queue.Some? {
      var frame := p.queue.value;
      var popped := p.(queue := None);
      PopKeeps(p);
      if t.native.Some? {
        PrepareKeeps(popped, frame, t);
        var (ready, hr) := Prepared(popped, frame, t);
        if !Fails(hr) {
          if !CanAcceptFrame(ready.encoder) {
            PutBackKeeps(ready, frame);
          } else if t.convert.None? {
            SubmitKeeps(ready, frame, t);
          }
        }
      }
    }
  }

  lemma EncodeLatestKeeps(p: Pipeline, t: Turn)
    requires Holds(p)
    ensures var (q, hr, out) := EncodedLatest(p, t);
            Holds(q) && Delivers(p, q, hr, out)
  {
    hide EncodedFromQueue, CompletedOrReset, FailedEncoder, Polled, CapturedAt;
    if !p.encoder.initialized {
      QueueKeeps(p, t);
    } else {
      PollKeeps(p.encoder, t.polled, t.output);
      var (encoder, hr, unit) := Polled(p.encoder, t.polled, t.output);
      var polled := p.(encoder := encoder);
      if hr == Success {
        CompleteKeeps(polled, unit, t);
      } else if Fails(hr) {
        FailureKeeps(polled, hr, t);
      } else if CanAcceptFrame(encoder) {
        QueueKeeps(polled, t);
      }
    }
  }

  lemma BlockedKeeps(p: Pipeline, requests: bool, policyWants: bool, setup: Setup)
    requires Holds(p)
    ensures var (q, _) := Blocked(p, requests, policyWants, setup); Holds(q) && q.returned == p.returned
  {
    hide Holds, Reset;
    SoundResetKeeps(p, setup);
    var first := if requests then Reset(p, setup).0 else p;
    PolicyKeeps(first, first.policyReset || policyWants);
    SoundResetKeeps(first.(policyReset := first.policyReset || policyWants), setup);
  }

  lemma CallKeeps(p: Pipeline, call: Call)
    requires Holds(p)
    ensures Holds(Next(p, call))
  {
    hide EncodedLatest, Blocked;
    match call
    case EncodeLatest(turn) => EncodeLatestKeeps(p, turn);
    case NotifyWouldBlock(requests, policyWants, setup) => BlockedKeeps(p, requests, policyWants, setup);
    case _ =>
  }

  lemma {:induction false} RunHolds(calls: seq<Call>)
    ensures Holds(Run(calls))
  {
    if calls != [] {
      RunHolds(calls[..|calls| - 1]);
      CallKeeps(Run(calls[..|calls| - 1]), calls[|calls| - 1]);
    }
  }

  // The properties, one by one.

  /** Between calls, a transform that has not faulted and the telemetry record
      know the same encode in flight, or none. */
  lemma {:induction false} EncoderAndTelemetryAgree(calls: seq<Call>)
    ensures var p := Run(calls);
            !p.encoder.async.faulted ==> InEncoder(p.encoder) == InRecord(p)
  {
    RunHolds(calls);
  }

  /** The record of the encode in flight is always there when its output
      arrives, with the same sequence number. */
  lemma {:induction false} NoMismatch(calls: seq<Call>)
    ensures Run(calls).mismatches == 0
  {
    RunHolds(calls);
  }

  /** Since Start the access units came out in strictly increasing order, each
      with the time at which its own frame was captured. */
  lemma {:induction false} UnitsAreOrderedAndTimed(calls: seq<Call>)
    ensures var p := Run(calls);
            && (forall i, j | 0 <= i < j < |p.returned| :: p.returned[i].sequence < p.returned[j].sequence)
            && (forall k | 0 <= k < |p.returned| ::
                  CapturedAt(p.times, p.returned[k].sequence, p.returned[k].acquiredAt))
  {
    RunHolds(calls);
  }

  /** A fault of the transform outlives the call that met it only when the
      driver reported it with the code for "not accepting"; then the next
      `EncodeLatest` resets the encoder. */
  lemma {:induction false} FaultsAreReset(calls: seq<Call>, t: Turn)
    requires Run(calls).encoder.async.faulted
    ensures var (q, hr, _) := EncodedLatest(Run(calls), t);
            && Run(calls).encoder.lastFatal == NotAccepting
            && Fails(hr) && !q.encoder.async.faulted && q.pending.None?
  {
    RunHolds(calls);
    SetupKeeps(t.recovery);
  }

  // When a call leaves the encoder faulted.

  /** The encode meets the code for "not accepting" where it is not one: from the
      event queue, or from the call for output. */
  predicate FaultsUnnoticed(e: Encoder, x: Encoding) {
    && e.asynchronous && x.rejected.None?
    && (|| x.before.failure == Some(NotAccepting)
        || (x.before.failure.None? && x.prepared.None? && x.input.None?
            && (|| x.after.failure == Some(NotAccepting)
                || (x.after.failure.None? && x.output == OutputFails(NotAccepting)
                    && (e.async.outputAvailable || HaveOutput in x.before.events || HaveOutput in x.after.events)))))
  }

  lemma {:induction false} OutputAnnounced(a: Async, events: seq<MftEvent>)
    requires !a.faulted
    ensures OnEvents(a, events).outputAvailable <==> a.outputAvailable || HaveOutput in events
    decreases |events|
  {
    if events != [] {
      assert events == [events[0]] + events[1..];
      OutputAnnounced(OnEvent(a, events[0]), events[1..]);
    }
  }

  lemma AfterInput(e: Encoder, pump: Pump, output: Output)
    requires EncoderHolds(e) && e.initialized && e.asynchronous && !e.async.faulted && e.async.pending.Some?
    ensures var (f, hr, _) := Polled(e, pump, output);
            f.async.faulted && hr == NotAccepting <==>
              || pump.failure == Some(NotAccepting)
              || (pump.failure.None? && output == OutputFails(NotAccepting)
                  && (e.async.outputAvailable || HaveOutput in pump.events))
  {
    OutputAnnounced(e.async, pump.events);
    EventsKeep(e.async, pump.events);
  }

  /** An encode faults with that code exactly when it meets it unnoticed. */
  lemma EncodeFaults(e: Encoder, sequence: nat, x: Encoding)
    requires EncoderHolds(e) && CanAcceptFrame(e) && InEncoder(e) == None && !e.async.faulted
    ensures var (f, hr, _) := Encoded(e, sequence, x); f.async.faulted && hr == NotAccepting <==> FaultsUnnoticed(e, x)
  {
    hide Polled;
    if x.rejected.None? && e.asynchronous {
      OutputAnnounced(e.async, x.before.events);
      EventsKeep(e.async, x.before.events);
      PumpKeeps(e, x.before);
      var (ready, hr) := Pumped(e, x.before);
      if !Fails(hr) && x.prepared.None? && x.input.None? {
        var accepted := ready.async.(inputRequested := false, pending := Some(sequence));
        AfterInput(ready.(async := accepted, inFlight := true), x.after, x.output);
      }
    }
  }

  /** The pipeline as it hands a frame to the encoder, if a call gets that far. */
  function AtSubmission(p: Pipeline, t: Turn): Option<Pipeline> {
    if p.encoder.initialized then
      var (encoder, hr, _) := Polled(p.encoder, t.polled, t.output);
      if hr != SFalse || !CanAcceptFrame(encoder) then None else FromQueue(p.(encoder := encoder), t)
    else FromQueue(p, t)
  }

  function FromQueue(p: Pipeline, t: Turn): Option<Pipeline> {
    if p.queue.None? || t.native.None? then None
    else
      var (ready, hr) := Prepared(p.(queue := None), p.queue.value, t);
      if Fails(hr) || !CanAcceptFrame(ready.encoder) || t.convert.Some? then None else Some(ready)
  }

  /** Every fault but that one is followed by a reset within the call. */
  lemma FailureResets(p: Pipeline, hr: Hr, t: Turn)
    requires EncoderHolds(p.encoder) && Fails(hr)
    ensures !FailedEncoder(p, hr, t).0.encoder.async.faulted
  {
    SetupKeeps(t.recovery);
  }

  lemma SubmissionFaults(p: Pipeline, frame: Captured, t: Turn)
    requires Holds(p) && MayEncode(p, frame) && p.pending.None? && CanAcceptFrame(p.encoder) && !p.encoder.async.faulted
    ensures Submitted(p, frame, t).0.encoder.async.faulted <==> FaultsUnnoticed(p.encoder, t.encoding)
  {
    hide FaultsUnnoticed, FailedEncoder, CompletedOrReset, Encoded, CapturedAt;
    EncodeFaults(p.encoder, frame.sequence, t.encoding);
    EncodeKeeps(p.encoder, frame.sequence, t.encoding);
    var (encoder, hr, unit) := Encoded(p.encoder, frame.sequence, t.encoding);
    var fed := p.(encoder := encoder);
    var record := PendingRecord(frame.sequence, frame.acquiredAt, t.conversion, t.encodeStarted);
    if hr == Success {
      CompletionKeepsEncoder(fed.(pending := Some(record)), unit, t);
    } else if Fails(hr) && hr != NotAccepting {
      FailureResets(fed, hr, t);
    }
  }

  lemma CompletionKeepsEncoder(p: Pipeline, unit: AccessUnit, t: Turn)
    requires InRecord(p) == Some(unit.sequence)
    ensures CompletedOrReset(p, unit, t).0.encoder == p.encoder
  {
  }

  lemma QueueFaults(p: Pipeline, t: Turn)
    requires Holds(p) && (p.encoder.initialized ==> CanAcceptFrame(p.encoder))
    ensures EncodedFromQueue(p, t).0.encoder.async.faulted
       <==> FromQueue(p, t).Some? && FaultsUnnoticed(FromQueue(p, t).value.encoder, t.encoding)
  {
    hide Holds, MayEncode, Prepared, Submitted, FaultsUnnoticed;
    IdleWhenAccepting(p);
    if p.queue.Some? {
      var frame := p.queue.value;
      var popped := p.(queue := None);
      PopKeeps(p);
      if t.native.Some? {
        PrepareKeeps(popped, frame, t);
        var (ready, hr) := Prepared(popped, frame, t);
        if !Fails(hr) && CanAcceptFrame(ready.encoder) && t.convert.None? {
          SubmissionFaults(ready, frame, t);
        }
      }
    }
  }

  /** An `EncodeLatest` leaves the encoder faulted if and only if it hands a frame
      to a transform that then answers "not accepting" out of place. */
  lemma EncodeLatestFaults(p: Pipeline, t: Turn)
    requires Holds(p)
    ensures EncodedLatest(p, t).0.encoder.async.faulted
       <==> AtSubmission(p, t).Some? && FaultsUnnoticed(AtSubmission(p, t).value.encoder, t.encoding)
  {
    hide EncodedFromQueue, FromQueue, CompletedOrReset, FailedEncoder, Polled, CapturedAt, FaultsUnnoticed;
    if !p.encoder.initialized {
      QueueFaults(p, t);
    } else {
      PollKeeps(p.encoder, t.polled, t.output);
      var (encoder, hr, unit) := Polled(p.encoder, t.polled, t.output);
      var polled := p.(encoder := encoder);
      if hr == Success {
        CompletionKeepsEncoder(polled, unit, t);
      } else if Fails(hr) {
        FailureResets(polled, hr, t);
      } else if CanAcceptFrame(encoder) {
        QueueFaults(polled, t);
      }
    }
  }

  /** Which calls leave the encoder faulted: that one, and those that do not
      touch an encoder that already was. */
  lemma FaultedAfter(p: Pipeline, call: Call)
    requires Holds(p)
    ensures Next(p, call).encoder.async.faulted <==>
      match call
      case Start => false
      case Stop => false
      case CaptureOnce(_) => p.encoder.async.faulted
      case EncodeLatest(turn) =>
        AtSubmission(p, turn).Some? && FaultsUnnoticed(AtSubmission(p, turn).value.encoder, turn.encoding)
      case NotifyWouldBlock(requests, policyWants, _) => p.encoder.async.faulted && !requests && !policyWants
  {
    hide EncodedLatest, AtSubmission, FaultsUnnoticed, CapturedAt;
    match call
    case EncodeLatest(turn) => EncodeLatestFaults(p, turn);
    case NotifyWouldBlock(requests, policyWants, setup) => SetupKeeps(setup);
    case _ =>
  }

  /** A run that ends faulted: the event queue itself answers "not accepting". */
  lemma FaultOutlivesCall(capture: Call, encode: Call, t: Turn)
    requires capture == CaptureOnce(FrameReady(0, Size(2, 2))) && encode == EncodeLatest(t)
    requires t.native == Some(Size(2, 2)) && t.device && t.converter.None? && t.setup == Fresh(true, [NeedInput])
    requires t.convert.None? && t.encoding.rejected.None? && t.encoding.before == Pump([], Some(NotAccepting))
    ensures Run([capture] + [encode]).encoder.async.faulted
  {
    hide EncodedLatest, FaultsUnnoticed, AtSubmission;
    RunOn([], capture);
    RunOn([capture], encode);
    assert [] + [capture] == [capture];
    RunHolds([capture]);
    RunOfNothing();
    var p := Run([capture]);
    FaultedAfter(p, encode);
    FirstSubmission(p, t);
  }

  lemma FirstSubmission(p: Pipeline, t: Turn)
    requires !p.encoder.initialized && p.queue.Some?
    requires t.native == Some(Size(2, 2)) && t.device && t.converter.None? && t.setup == Fresh(true, [NeedInput])
    requires t.convert.None? && t.encoding.rejected.None? && t.encoding.before == Pump([], Some(NotAccepting))
    ensures AtSubmission(p, t).Some? && FaultsUnnoticed(AtSubmission(p, t).value.encoder, t.encoding)
  {
    var events := t.setup.events;
    assert events == [NeedInput] && events[1..] == [];
    assert OnEvents(STARTED, events) == OnEvents(OnEvent(STARTED, NeedInput), events[1..]);
    assert OnEvents(STARTED, events).inputRequested;
    EventsKeep(STARTED, events);
  }
}
