/** The host's capture-encode pipeline on values: the asynchronous transform's
    state machine, the encoder around it, the pending-telemetry record, and the
    calls that drive them.  Whatever the transform and the driver answer is a
    parameter. */
module EncodePipeline {
  import opened Wrappers
  import opened EncodeSize

  /** HRESULTs, as far as the pipeline distinguishes them. */
  datatype Hr = Success | SFalse | NotAccepting | NeedMoreInput | Failure(code: nat)

  predicate Fails(hr: Hr) {
    hr != Success && hr != SFalse
  }

  type Fault = hr: Hr | Fails(hr) witness Failure(0)

  const E_UNEXPECTED: Fault := Failure(1)
  const NOT_INITIALIZED: Fault := Failure(2)
  const INVALID_ARGUMENT: Fault := Failure(3)
  const INVALID_HANDLE: Fault := Failure(4)

  // AsyncMftStateMachine.

  datatype MftEvent = NeedInput | HaveOutput | DrainComplete | EndOfStream | OtherEvent

  datatype Async = Async(
    inputRequested: bool, outputAvailable: bool, draining: bool, drainComplete: bool, endOfStream: bool,
    faulted: bool, restartRequested: bool, pending: Option<nat>)

  const STARTED := Async(false, false, false, false, false, false, false, None)

  function OnEvent(a: Async, event: MftEvent): Async {
    match event
    case NeedInput => if !a.draining && !a.faulted then a.(inputRequested := true) else a
    case HaveOutput => if !a.faulted then a.(outputAvailable := true) else a
    case DrainComplete => a.(drainComplete := true)
    case EndOfStream => a.(endOfStream := true)
    case OtherEvent => a
  }

  function OnEvents(a: Async, events: seq<MftEvent>): Async
    decreases |events|
  {
    if events == [] then a else OnEvents(OnEvent(a, events[0]), events[1..])
  }

  predicate CanAcceptInput(a: Async) {
    a.inputRequested && a.pending.None? && !a.draining && !a.faulted
  }

  // HardwareH264Encoder.

  /** `inFlight` guards the cached input sample; `fatalRestart` and `lastFatal`
      remember a fatal event of the transform. */
  datatype Encoder = Encoder(
    initialized: bool, asynchronous: bool, async: Async, inFlight: bool, fatalRestart: bool, lastFatal: Hr)

  const SHUT_DOWN := Encoder(false, false, STARTED, false, false, Success)

  /** What the event queue yields in one pump: some events, and perhaps a failure. */
  datatype Pump = Pump(events: seq<MftEvent>, failure: Option<Fault>)

  /** What one call for output yields. */
  datatype Output = Produced(bytes: seq<bv8>, idr: bool, at: int) | Nothing | OutputFails(fault: Fault)

  /** What (re-)initialising the encoder yields. */
  datatype Setup = Fresh(asynchronous: bool, events: seq<MftEvent>) | SetupFails(fault: Fault)

  datatype AccessUnit = AccessUnit(bytes: seq<bv8>, sequence: nat, isIdr: bool, acquiredAt: int, encodedAt: int)

  const NO_UNIT := AccessUnit([], 0, false, 0, 0)

  function MarkFatal(e: Encoder, fault: Fault): Encoder {
    e.(async := e.async.(inputRequested := false, outputAvailable := false, faulted := true, restartRequested := true),
       fatalRestart := true, lastFatal := fault)
  }

  function Pumped(e: Encoder, pump: Pump): (Encoder, Hr) {
    if !e.asynchronous then (e, Success)
    else
      var seen := e.(async := OnEvents(e.async, pump.events));
      if pump.failure.Some? then (MarkFatal(seen, pump.failure.value), pump.failure.value) else (seen, Success)
  }

  function AsyncOutput(e: Encoder, output: Output): (Encoder, Hr, AccessUnit) {
    if !e.async.outputAvailable then (e, SFalse, NO_UNIT)
    else if e.async.pending.None? then (MarkFatal(e, E_UNEXPECTED), E_UNEXPECTED, NO_UNIT)
    else
      match output
      case Nothing => (e.(async := e.async.(outputAvailable := false)), SFalse, NO_UNIT)
      case OutputFails(fault) =>
        if fault == NeedMoreInput then (e.(async := e.async.(outputAvailable := false)), SFalse, NO_UNIT)
        else (MarkFatal(e.(inFlight := false), fault), fault, NO_UNIT)
      case Produced(bytes, idr, at) =>
        (e.(async := e.async.(outputAvailable := false, pending := None), inFlight := false), Success,
         AccessUnit(bytes, e.async.pending.value, idr, 0, at))
  }

  function Polled(e: Encoder, pump: Pump, output: Output): (Encoder, Hr, AccessUnit) {
    if !e.initialized then (e, NOT_INITIALIZED, NO_UNIT)
    else if !e.asynchronous then (e, SFalse, NO_UNIT)
    else if e.async.faulted then (e, e.lastFatal, NO_UNIT)
    else
      var (pumped, hr) := Pumped(e, pump);
      if Fails(hr) then (pumped, hr, NO_UNIT) else AsyncOutput(pumped, output)
  }

  predicate CanAcceptFrame(e: Encoder) {
    e.initialized && (!e.asynchronous || CanAcceptInput(e.async))
  }

  /** What `Encode` meets: a bad argument or frame, the pump before the input,
      preparing the input sample, ProcessInput, and the pump and output after it. */
  datatype Encoding = Encoding(
    rejected: Option<Fault>, before: Pump, prepared: Option<Fault>, input: Option<Fault>, after: Pump, output: Output)

  function AsyncEncoded(e: Encoder, sequence: nat, x: Encoding): (Encoder, Hr, AccessUnit) {
    var (ready, hr) := Pumped(e, x.before);
    if Fails(hr) then (ready, hr, NO_UNIT)
    else if !CanAcceptInput(ready.async) || ready.inFlight then (ready, NotAccepting, NO_UNIT)
    else if x.prepared.Some? then (ready, x.prepared.value, NO_UNIT)
    else if x.input.Some? then
      var cleared := ready.(inFlight := false);
      if x.input.value != NotAccepting then (MarkFatal(cleared, x.input.value), x.input.value, NO_UNIT)
      else (cleared, NotAccepting, NO_UNIT)
    else
      var async := ready.async.(inputRequested := false, pending := Some(sequence));
      var accepted := ready.(async := async, inFlight := true);
      Polled(accepted, x.after, x.output)
  }

  function SyncEncoded(e: Encoder, sequence: nat, x: Encoding): (Encoder, Hr, AccessUnit) {
    if x.prepared.Some? then (e, x.prepared.value, NO_UNIT)
    else if x.input.Some? then (e.(inFlight := false, fatalRestart := true), x.input.value, NO_UNIT)
    else
      match x.output
      case Nothing => (e, SFalse, NO_UNIT)
      case OutputFails(fault) =>
        if fault == NeedMoreInput then (e, fault, NO_UNIT)
        else (e.(inFlight := false, fatalRestart := true), fault, NO_UNIT)
      case Produced(bytes, idr, at) => (e, Success, AccessUnit(bytes, sequence, idr, 0, at))
  }

  function Encoded(e: Encoder, sequence: nat, x: Encoding): (Encoder, Hr, AccessUnit) {
    if x.rejected.Some? then (e, x.rejected.value, NO_UNIT)
    else if e.asynchronous then AsyncEncoded(e, sequence, x)
    else SyncEncoded(e, sequence, x)
  }

  function RestartTaken(e: Encoder): (Encoder, bool) {
    var async := if e.asynchronous then e.async.(restartRequested := false) else e.async;
    (e.(async := async, fatalRestart := false), e.fatalRestart)
  }

  /** `Initialize`, on an encoder that was shut down. */
  function Initialized(setup: Setup): (Encoder, Hr) {
    match setup
    case SetupFails(fault) => (SHUT_DOWN, fault)
    case Fresh(asynchronous, events) =>
      var async := if asynchronous then OnEvents(STARTED, events) else STARTED;
      (Encoder(true, asynchronous, async, false, false, Success), Success)
  }

  function ResetAndIdrRequested(e: Encoder, setup: Setup): (Encoder, Hr) {
    if !e.initialized then (e, NOT_INITIALIZED)
    else if e.asynchronous then Initialized(setup)
    else
      match setup
      case SetupFails(fault) => (e.(inFlight := false), fault)
      case Fresh(_, _) => (e.(inFlight := false, fatalRestart := false), Success)
  }

  // VideoPipeline.

  datatype Captured = Captured(sequence: nat, acquiredAt: int, size: Size)

  datatype PendingRecord = PendingRecord(sequence: nat, acquiredAt: int, conversion: int, encodeStarted: int)

  /** What telemetry hears of a unit; durations in microseconds. */
  datatype EncodeTelemetry = EncodeTelemetry(
    sequence: nat, acquiredAt: int, encodedAt: int, conversion: int, encodeDuration: int, captureToEncode: int,
    idr: bool, queueAge: int)

  /** From nanoseconds, towards zero. */
  function Micros(nanoseconds: int): int {
    if nanoseconds >= 0 then nanoseconds / 1000 else -(-nanoseconds / 1000)
  }

  function Sampled(record: PendingRecord, unit: AccessUnit): EncodeTelemetry {
    EncodeTelemetry(unit.sequence, record.acquiredAt, unit.encodedAt, record.conversion,
                    Micros(unit.encodedAt - record.encodeStarted), Micros(unit.encodedAt - record.acquiredAt),
                    unit.isIdr, Micros(record.encodeStarted - record.acquiredAt))
  }

  /** Time in the queue and time in the encoder make up the time from capture to
      encode, to the microsecond that rounding loses. */
  lemma DurationsAddUp(record: PendingRecord, unit: AccessUnit)
    requires record.acquiredAt <= record.encodeStarted <= unit.encodedAt
    ensures var t := Sampled(record, unit);
            && 0 <= t.queueAge && 0 <= t.encodeDuration
            && t.queueAge + t.encodeDuration <= t.captureToEncode <= t.queueAge + t.encodeDuration + 1
  {
  }

  /** The last three fields are history since Start: the capture times by
      sequence number, counted from 1; the access units handed out; and how
      often the record of the pending encode did not match. */
  datatype Pipeline = Pipeline(
    encoder: Encoder, pending: Option<PendingRecord>, queue: Option<Captured>, replaced: nat,
    encodeSize: Size, policyReset: bool, times: seq<int>, returned: seq<AccessUnit>, mismatches: nat)

  /** What one `EncodeLatest` meets besides the encoder's own answers.  `native`
      is the encode size the policy asks for, None when it is not valid. */
  datatype Turn = Turn(
    polled: Pump, output: Output, native: Option<Size>, device: bool, converter: Option<Fault>, setup: Setup,
    policySetup: Setup, convert: Option<Fault>, conversion: int, encodeStarted: int, encoding: Encoding,
    recovery: Setup, now: int, policyWants: bool)

  function Reset(p: Pipeline, setup: Setup): (Pipeline, Hr) {
    var (encoder, hr) := ResetAndIdrRequested(p.encoder, setup);
    (p.(encoder := encoder, pending := None), hr)
  }

  /** `CompleteEncodedFrame`: ties the unit to the record of its input. */
  function Completed(p: Pipeline, unit: AccessUnit, now: int, policyWants: bool): (Pipeline, Hr, AccessUnit) {
    if p.pending.None? then (p.(mismatches := p.mismatches + 1), E_UNEXPECTED, unit)
    else
      var record := p.pending.value;
      var taken := p.(pending := None);
      if record.sequence != unit.sequence then (taken.(mismatches := taken.mismatches + 1), E_UNEXPECTED, unit)
      else
        var encodedAt := if unit.encodedAt == 0 then now else unit.encodedAt;
        var stamped := unit.(acquiredAt := record.acquiredAt, encodedAt := encodedAt);
        (taken.(policyReset := taken.policyReset || policyWants, returned := taken.returned + [stamped]),
         Success, stamped)
  }

  function CompletedOrReset(p: Pipeline, unit: AccessUnit, t: Turn): (Pipeline, Hr, AccessUnit) {
    var (done, hr, stamped) := Completed(p, unit, t.now, t.policyWants);
    if !Fails(hr) then (done, Success, stamped)
    else
      var (reset, resetHr) := Reset(done, t.recovery);
      (reset, if Fails(resetHr) then resetHr else hr, stamped)
  }

  function Unmatched(p: Pipeline, t: Turn): (Pipeline, Hr, AccessUnit) {
    var (reset, hr) := Reset(p.(pending := None, mismatches := p.mismatches + 1), t.recovery);
    (reset, if Fails(hr) then hr else E_UNEXPECTED, NO_UNIT)
  }

  function FailedEncoder(p: Pipeline, hr: Hr, t: Turn): (Pipeline, Hr, AccessUnit) {
    var (encoder, restart) := RestartTaken(p.encoder);
    var cleared := p.(encoder := encoder, pending := None);
    if !restart then (cleared, hr, NO_UNIT)
    else
      var (reset, resetHr) := Reset(cleared, t.recovery);
      (reset, if Fails(resetHr) then resetHr else hr, NO_UNIT)
  }

  function PushedIfEmpty(p: Pipeline, frame: Captured): Pipeline {
    if p.queue.Some? then p else p.(queue := Some(frame))
  }

  function EncodedLatest(p: Pipeline, t: Turn): (Pipeline, Hr, AccessUnit) {
    if p.encoder.initialized then
      var (encoder, hr, unit) := Polled(p.encoder, t.polled, t.output);
      var polled := p.(encoder := encoder);
      if hr == Success then CompletedOrReset(polled, unit, t)
      else if Fails(hr) then FailedEncoder(polled, hr, t)
      else if !CanAcceptFrame(encoder) then (polled, SFalse, NO_UNIT)
      else EncodedFromQueue(polled, t)
    else EncodedFromQueue(p, t)
  }

  function EncodedFromQueue(p: Pipeline, t: Turn): (Pipeline, Hr, AccessUnit) {
    if p.queue.None? then (p, SFalse, NO_UNIT)
    else
      var frame := p.queue.value;
      var popped := p.(queue := None);
      if t.native.None? then (popped, INVALID_ARGUMENT, NO_UNIT)
      else
        var (ready, hr) := Prepared(popped, frame, t);
        if Fails(hr) then (ready, hr, NO_UNIT)
        else if !CanAcceptFrame(ready.encoder) then (PushedIfEmpty(ready, frame), SFalse, NO_UNIT)
        else if t.convert.Some? then (ready, t.convert.value, NO_UNIT)
        else Submitted(ready, frame, t)
  }

  /** Brings the encoder to the requested size, or resets it when the policy asked for that. */
  function Prepared(p: Pipeline, frame: Captured, t: Turn): (Pipeline, Hr)
    requires t.native.Some?
  {
    if !p.encoder.initialized || t.native.value != p.encodeSize then
      var bare := p.(pending := None, encoder := SHUT_DOWN);
      if !t.device then (bare, INVALID_HANDLE)
      else if t.converter.Some? then (bare, t.converter.value)
      else
        var (encoder, hr) := Initialized(t.setup);
        if Fails(hr) then (PushedIfEmpty(bare.(encoder := encoder), frame), hr)
        else (bare.(encoder := encoder, encodeSize := t.native.value, policyReset := false), Success)
    else if p.policyReset then
      var (reset, hr) := Reset(p, t.policySetup);
      if Fails(hr) then (reset, hr) else (reset.(policyReset := false), Success)
    else (p, Success)
  }

  /** Hands the frame to the encoder and files its record. */
  function Submitted(p: Pipeline, frame: Captured, t: Turn): (Pipeline, Hr, AccessUnit) {
    var record := PendingRecord(frame.sequence, frame.acquiredAt, t.conversion, t.encodeStarted);
    var (encoder, hr, unit) := Encoded(p.encoder, frame.sequence, t.encoding);
    var fed := p.(encoder := encoder);
    if hr == SFalse then
      if encoder.asynchronous && encoder.async.pending.Some? then
        if encoder.async.pending.value != record.sequence || fed.pending.Some? then Unmatched(fed, t)
        else (fed.(pending := Some(record)), SFalse, NO_UNIT)
      else (fed, SFalse, NO_UNIT)
    else if hr == NotAccepting then (PushedIfEmpty(fed, frame), SFalse, NO_UNIT)
    else if Fails(hr) then FailedEncoder(fed, hr, t)
    else if fed.pending.Some? then Unmatched(fed, t)
    else CompletedOrReset(fed.(pending := Some(record)), unit, t)
  }

  predicate InFlightEncode(p: Pipeline) {
    (p.encoder.asynchronous && p.encoder.async.pending.Some?) || p.pending.Some?
  }

  /** What the desktop duplication answers: nothing yet, a failure, a frame it
      then fails to release, or a frame. */
  datatype Capture =
    | NoFrame
    | CaptureFails(fault: Fault)
    | FrameLost(at: int, fault: Fault)
    | FrameReady(at: int, size: Size)

  function CapturedOnce(p: Pipeline, answer: Capture): (Pipeline, Hr) {
    if InFlightEncode(p) then (p, SFalse)
    else
      match answer
      case NoFrame => (p, SFalse)
      case CaptureFails(fault) => (p, fault)
      case FrameLost(at, fault) => (p.(times := p.times + [at]), fault)
      case FrameReady(at, size) =>
        (p.(times := p.times + [at], queue := Some(Captured(|p.times| + 1, at, size)),
            replaced := p.replaced + (if p.queue.Some? then 1 else 0)),
         Success)
  }

  datatype TransportAction = Hold | RequestStreamReset

  /** `NotifyTransportWouldBlock`; `requests` is what the backpressure policy
      answers and `policyWants` whether the resolution policy asks for a reset. */
  function Blocked(p: Pipeline, requests: bool, policyWants: bool, setup: Setup): (Pipeline, TransportAction) {
    var action := if requests then RequestStreamReset else Hold;
    var (first, hr) := if requests then Reset(p, setup) else (p, Success);
    if Fails(hr) then (first, RequestStreamReset)
    else
      var marked := first.(policyReset := first.policyReset || policyWants);
      if policyWants && !requests && marked.encoder.initialized then
        var (reset, resetHr) := Reset(marked, setup);
        (reset, if Fails(resetHr) then RequestStreamReset else action)
      else (marked, action)
  }

  function Stopped(p: Pipeline): Pipeline {
    Pipeline(SHUT_DOWN, None, None, p.replaced, Size(0, 0), false, [], [], p.mismatches)
  }

  const FIRST := Pipeline(SHUT_DOWN, None, None, 0, Size(0, 0), false, [], [], 0)
}
