/** What becomes of every captured frame: between Start and Stop each one waits, is
    in flight, was returned, was replaced by a newer one, or was lost in a call that
    the answers of the driver name.  Nothing here asks the pipeline's own functions. */
module FrameFates {
  import opened Wrappers
  import opened EncodePipeline
  import opened EncodeSize
  import opened EncodeRuns

  /** Absorbed: a synchronous transform took the frame and gave nothing for it. */
  datatype Fate = Waits | InFlight | Returned | Absorbed | Lost

  // One submission to the encoder.

  /** Whether output has been announced by the time the encode asks for it. */
  predicate Announces(announced: bool, x: Encoding) {
    announced || HaveOutput in x.before.events || HaveOutput in x.after.events
  }

  /** The first fault an encode meets.  Only a synchronous transform that needs more
      input fails with it. */
  function FirstFault(asynchronous: bool, announced: bool, x: Encoding): Option<Fault> {
    if x.rejected.Some? then x.rejected
    else if asynchronous && x.before.failure.Some? then x.before.failure
    else if x.prepared.Some? then x.prepared
    else if x.input.Some? then x.input
    else if asynchronous && x.after.failure.Some? then x.after.failure
    else if x.output.OutputFails?
            && (!asynchronous || (Announces(announced, x) && x.output.fault != NeedMoreInput)) then Some(x.output.fault)
    else None
  }

  /** The fault is one after which the encoder is started anew: not a frame that could
      not even be offered, and not a synchronous transform that needs more input. */
  predicate Restarts(asynchronous: bool, announced: bool, x: Encoding) {
    && FirstFault(asynchronous, announced, x).Some? && x.rejected.None?
    && ((asynchronous && x.before.failure.Some?) || x.prepared.None?)
    && (asynchronous || x.input.Some? || x.output != OutputFails(NeedMoreInput))
  }

  /** The encoder after a restart. */
  ghost predicate Renewed(e: Encoder, setup: Setup) {
    && (e.initialized <==> setup.Fresh?) && !e.async.faulted && InEncoder(e) == None
    && (setup.Fresh? ==> e.asynchronous == setup.asynchronous && (CanAcceptFrame(e) <==> MeetsFresh(setup).Meets?))
  }

  function SubmissionFate(asynchronous: bool, announced: bool, x: Encoding): Fate {
    var fault := FirstFault(asynchronous, announced, x);
    if fault == Some(NotAccepting) then Waits
    else if fault.Some? then Lost
    else if x.output.Produced? && (!asynchronous || Announces(announced, x)) then Returned
    else if asynchronous then InFlight
    else Absorbed
  }

  // The poll before a frame is taken off the queue.

  predicate PollAnnounces(e: Encoder, t: Turn) {
    e.async.outputAvailable || HaveOutput in t.polled.events
  }

  predicate PollFails(e: Encoder, t: Turn) {
    e.asynchronous &&
    (|| e.async.faulted || t.polled.failure.Some?
     || (PollAnnounces(e, t)
         && (e.async.pending.None? || (t.output.OutputFails? && t.output.fault != NeedMoreInput))))
  }

  predicate PollReturns(e: Encoder, t: Turn) {
    e.asynchronous && !PollFails(e, t) && PollAnnounces(e, t) && t.output.Produced?
  }

  predicate TakesAfterPoll(e: Encoder, t: Turn) {
    !e.asynchronous || (e.async.pending.None? && (e.async.inputRequested || NeedInput in t.polled.events))
  }

  // A whole call.

  /** The encoder a frame meets after the preparations, or why it meets none. */
  datatype Meeting =
    | Refused                                            // the frame is lost before
    | NotReady                                           // it goes back to the queue
    | Meets(asynchronous: bool, announced: bool)

  /** After (re-)initialising. */
  function MeetsFresh(setup: Setup): Meeting
    requires setup.Fresh?
  {
    if setup.asynchronous && NeedInput !in setup.events then NotReady
    else Meets(setup.asynchronous, setup.asynchronous && HaveOutput in setup.events)
  }

  function MeetingOf(p: Pipeline, t: Turn): Meeting {
    if t.native.None? then Refused
    else if !p.encoder.initialized || t.native.value != p.encodeSize then
      if !t.device || t.converter.Some? then Refused
      else if t.setup.SetupFails? then NotReady
      else MeetsFresh(t.setup)
    else if p.policyReset then
      if t.policySetup.SetupFails? then Refused
      else if p.encoder.asynchronous then MeetsFresh(t.policySetup)
      else Meets(false, false)
    else Meets(p.encoder.asynchronous, false)
  }

  /** The encoder is to be set up anew, and that fails. */
  predicate SetupFails(p: Pipeline, t: Turn) {
    && t.native.Some? && (!p.encoder.initialized || t.native.value != p.encodeSize)
    && t.device && t.converter.None? && t.setup.SetupFails?
  }

  /** The frame, once it was taken off the queue. */
  function FateAt(meeting: Meeting, t: Turn): Fate {
    match meeting
    case Refused => Lost
    case NotReady => Waits
    case Meets(asynchronous, announced) =>
      if t.convert.Some? then Lost else SubmissionFate(asynchronous, announced, t.encoding)
  }

  /** The encoder took the frame. */
  predicate Handed(fate: Fate) {
    fate == InFlight || fate == Returned || fate == Absorbed
  }

  /** The poll comes first, and the queue only if it yields nothing. */
  predicate ReachesQueue(p: Pipeline, t: Turn) {
    p.encoder.initialized ==>
      !PollFails(p.encoder, t) && !PollReturns(p.encoder, t) && TakesAfterPoll(p.encoder, t)
  }

  /** The frame that waits in the queue, in one `EncodeLatest`. */
  function QueuedFate(p: Pipeline, t: Turn): Fate {
    if ReachesQueue(p, t) then FateAt(MeetingOf(p, t), t) else Waits
  }

  /** The frame in flight, in any call but Start and Stop. */
  function InFlightFate(p: Pipeline, call: Call): Fate {
    match call
    case EncodeLatest(t) =>
      if PollFails(p.encoder, t) then Lost else if PollReturns(p.encoder, t) then Returned else InFlight
    case NotifyWouldBlock(requests, policyWants, _) => if requests || policyWants then Lost else InFlight
    case _ => InFlight
  }

  // What the encoder does.

  lemma {:induction false} InputRequested(a: Async, events: seq<MftEvent>)
    requires !a.faulted && !a.draining
    ensures OnEvents(a, events).inputRequested <==> a.inputRequested || NeedInput in events
    decreases |events|
  {
    if events != [] {
      assert events == [events[0]] + events[1..];
      InputRequested(OnEvent(a, events[0]), events[1..]);
    }
  }

  lemma PollIs(e: Encoder, t: Turn)
    requires EncoderHolds(e) && e.initialized
    ensures var (f, hr, unit) := Polled(e, t.polled, t.output);
            && (Fails(hr) <==> PollFails(e, t)) && (hr == Success <==> PollReturns(e, t))
            && (hr == Success ==> unit.bytes == t.output.bytes && unit.isIdr == t.output.idr)
            && (hr == SFalse ==> (CanAcceptFrame(f) <==> TakesAfterPoll(e, t)))
            && (!Fails(hr) && e.asynchronous ==>
                  (f.async.inputRequested <==> e.async.inputRequested || NeedInput in t.polled.events))
            && (hr == SFalse && e.asynchronous && e.async.pending.None? ==> !f.async.outputAvailable)
  {
    if e.asynchronous && !e.async.faulted {
      EventsKeep(e.async, t.polled.events);
      InputRequested(e.async, t.polled.events);
      OutputAnnounced(e.async, t.polled.events);
    }
  }

  lemma SubmissionIs(e: Encoder, sequence: nat, x: Encoding)
    requires EncoderHolds(e) && CanAcceptFrame(e) && InEncoder(e) == None && !e.async.faulted
    ensures var (f, hr, unit) := Encoded(e, sequence, x);
            var fault := FirstFault(e.asynchronous, e.async.outputAvailable, x);
            && (fault.Some? ==> hr == fault.value)
            && (fault.None? ==>
                  hr == if SubmissionFate(e.asynchronous, e.async.outputAvailable, x) == Returned then Success
                        else SFalse)
            && (hr == Success ==> unit.bytes == x.output.bytes && unit.isIdr == x.output.idr)
            && (!Fails(hr) && e.asynchronous ==> (f.async.inputRequested <==> NeedInput in x.after.events))
            && (fault.Some? && fault != Some(NotAccepting) && e.asynchronous ==>
                  f.initialized && f.fatalRestart == Restarts(true, e.async.outputAvailable, x))
  {
    if x.rejected.None? && e.asynchronous {
      EventsKeep(e.async, x.before.events);
      OutputAnnounced(e.async, x.before.events);
      var ready := OnEvents(e.async, x.before.events);
      var accepted := ready.(inputRequested := false, pending := Some(sequence));
      EventsKeep(accepted, x.after.events);
      OutputAnnounced(accepted, x.after.events);
      InputRequested(accepted, x.after.events);
    }
  }

  lemma SetupIs(setup: Setup)
    ensures var (e, hr) := Initialized(setup);
            && (Fails(hr) <==> setup.SetupFails?)
            && (setup.Fresh? ==>
                  && e.asynchronous == setup.asynchronous && e.initialized
                  && (CanAcceptFrame(e) <==> MeetsFresh(setup).Meets?)
                  && e.async.outputAvailable == (setup.asynchronous && HaveOutput in setup.events))
  {
    if setup.Fresh? && setup.asynchronous {
      EventsKeep(STARTED, setup.events);
      InputRequested(STARTED, setup.events);
      OutputAnnounced(STARTED, setup.events);
    }
  }

  lemma SizedIs(p: Pipeline, frame: Captured, t: Turn)
    requires Holds(p) && p.queue.None? && p.pending.None? && t.native.Some?
    requires p.encoder.initialized ==> CanAcceptFrame(p.encoder) && !p.encoder.async.outputAvailable
    ensures var (q, hr) := Prepared(p, frame, t);
            && q.queue == (if Fails(hr) && MeetingOf(p, t).NotReady? then Some(frame) else None)
            && (Fails(hr) <==> MeetingOf(p, t).Refused? || SetupFails(p, t))
            && match MeetingOf(p, t)
               case Refused => Fails(hr)
               case NotReady => Fails(hr) || !CanAcceptFrame(q.encoder)
               case Meets(asynchronous, announced) =>
                 && !Fails(hr) && CanAcceptFrame(q.encoder)
                 && q.encoder.asynchronous == asynchronous && q.encoder.async.outputAvailable == announced
                 && q.encodeSize == t.native.value && !q.policyReset
  {
    hide Initialized, CapturedAt;
    SetupIs(t.setup);
    SetupIs(t.policySetup);
  }

  lemma FailureIs(p: Pipeline, hr: Hr, t: Turn)
    requires Fails(hr)
    ensures var (q, out, _) := FailedEncoder(p, hr, t);
            && (p.encoder.fatalRestart && p.encoder.initialized && p.encoder.asynchronous ==>
                  Renewed(q.encoder, t.recovery))
            && (!p.encoder.fatalRestart ==>
                  q.encoder.initialized == p.encoder.initialized && q.encoder.asynchronous == p.encoder.asynchronous)
            && Fails(out) && q.queue == p.queue && q.pending.None? && q.returned == p.returned
            && q.encodeSize == p.encodeSize
  {
    SetupIs(t.recovery);
    SetupKeeps(t.recovery);
  }

  /** The unit handed out for a frame. */
  ghost predicate UnitOf(unit: AccessUnit, sequence: nat, output: Output) {
    output.Produced? && unit.sequence == sequence && unit.bytes == output.bytes && unit.isIdr == output.idr
  }

  lemma SubmittedIs(p: Pipeline, frame: Captured, t: Turn)
    requires Holds(p) && MayEncode(p, frame) && p.pending.None? && CanAcceptFrame(p.encoder) && !p.encoder.async.faulted
    ensures var (q, hr, unit) := Submitted(p, frame, t);
            var fate := SubmissionFate(p.encoder.asynchronous, p.encoder.async.outputAvailable, t.encoding);
            && q.queue == (if fate == Waits then Some(frame) else None)
            && InRecord(q) == (if fate == InFlight then Some(frame.sequence) else None)
            && (Fails(hr) <==> fate == Lost) && (hr == Success <==> fate == Returned)
            && (fate != Lost ==> q.encodeSize == p.encodeSize)
            && (fate != Lost ==> q.policyReset == (p.policyReset || (fate == Returned && t.policyWants)))
            && (fate == Returned ==> UnitOf(unit, frame.sequence, t.encoding.output))
            && ((fate == InFlight || fate == Returned) && q.encoder.asynchronous ==>
                  (q.encoder.async.inputRequested <==> NeedInput in t.encoding.after.events))
            && (fate == Lost && p.encoder.asynchronous ==>
                  if Restarts(true, p.encoder.async.outputAvailable, t.encoding) then Renewed(q.encoder, t.recovery)
                  else q.encoder.initialized && q.encoder.asynchronous)
  {
    hide Renewed, Restarts, FirstFault, FailedEncoder, Encoded, CapturedAt;
    var e := p.encoder;
    EncodeKeeps(e, frame.sequence, t.encoding);
    SubmissionIs(e, frame.sequence, t.encoding);
    var (encoder, hr, unit) := Encoded(e, frame.sequence, t.encoding);
    if Fails(hr) && hr != NotAccepting {
      FailureIs(p.(encoder := encoder), hr, t);
    }
  }

  /** An asynchronous encoder that failed an encode is started anew, or kept. */
  ghost predicate RestartsWhenLost(meeting: Meeting, t: Turn, q: Pipeline) {
    meeting.Meets? && meeting.asynchronous && t.convert.None? ==>
      if Restarts(true, meeting.announced, t.encoding) then Renewed(q.encoder, t.recovery)
      else q.encoder.initialized && q.encoder.asynchronous
  }

  /** A call that goes to the queue. */
  lemma QueueIs(p: Pipeline, t: Turn)
    requires Holds(p) && (p.encoder.initialized ==> CanAcceptFrame(p.encoder) && !p.encoder.async.outputAvailable)
    requires p.queue.Some?
    ensures var (q, hr, unit), frame := EncodedFromQueue(p, t), p.queue.value;
            var fate := FateAt(MeetingOf(p, t), t);
            && q.queue == (if fate == Waits then p.queue else None)
            && InRecord(q) == (if fate == InFlight then Some(frame.sequence) else None)
            && (hr == Success <==> fate == Returned)
            && (Fails(hr) <==> fate == Lost || SetupFails(p, t))
            && (fate == Returned ==> UnitOf(unit, frame.sequence, t.encoding.output))
            && (Handed(fate) ==> q.encodeSize == t.native.value && q.policyReset == (fate == Returned && t.policyWants))
            && ((fate == InFlight || fate == Returned) && q.encoder.asynchronous ==>
                  (q.encoder.async.inputRequested <==> NeedInput in t.encoding.after.events))
            && (fate == Lost ==> RestartsWhenLost(MeetingOf(p, t), t, q))
  {
    hide Holds, MayEncode, Prepared, Submitted, SubmissionFate, MeetingOf, SetupFails, Renewed, Restarts;
    IdleWhenAccepting(p);
    var frame := p.queue.value;
    var popped := p.(queue := None);
    PopKeeps(p);
    SameMeeting(p, t);
    if t.native.Some? {
      PrepareKeeps(popped, frame, t);
      SizedIs(popped, frame, t);
      var (ready, hr) := Prepared(popped, frame, t);
      if !Fails(hr) && CanAcceptFrame(ready.encoder) && t.convert.None? {
        SubmittedIs(ready, frame, t);
      }
    }
  }

  lemma SameMeeting(p: Pipeline, t: Turn)
    ensures MeetingOf(p.(queue := None), t) == MeetingOf(p, t)
    ensures SetupFails(p.(queue := None), t) == SetupFails(p, t)
    ensures t.native.None? ==> MeetingOf(p, t) == Refused && !SetupFails(p, t)
    ensures SetupFails(p, t) ==> MeetingOf(p, t) == NotReady
  {
  }

  /** What one `EncodeLatest` does with the frame that waits and with the one in flight. */
  ghost predicate LatestOutcome(p: Pipeline, t: Turn, q: Pipeline, hr: Hr, unit: AccessUnit) {
    var waiting := p.queue.Some? && QueuedFate(p, t) == Waits;
    var flying := p.pending.Some?;
    && q.queue == (if waiting then p.queue else None)
    && InRecord(q) == (if flying then if InFlightFate(p, EncodeLatest(t)) == InFlight then InRecord(p) else None
                       else if p.queue.Some? && QueuedFate(p, t) == InFlight then Some(p.queue.value.sequence)
                       else None)
    && (flying && InFlightFate(p, EncodeLatest(t)) == Returned ==>
          hr == Success && UnitOf(unit, p.pending.value.sequence, t.output))
    && (p.queue.Some? && QueuedFate(p, t) == Returned ==>
          hr == Success && UnitOf(unit, p.queue.value.sequence, t.encoding.output))
    && (hr == Success ==>
          || (flying && InFlightFate(p, EncodeLatest(t)) == Returned)
          || (!flying && p.queue.Some? && QueuedFate(p, t) == Returned))
    && (flying ==> p.queue.Some? ==> waiting)
    && (Fails(hr) <==>
          || (p.encoder.initialized && PollFails(p.encoder, t))
          || (p.queue.Some? && ReachesQueue(p, t) && (QueuedFate(p, t) == Lost || SetupFails(p, t))))
    && (p.queue.Some? && Handed(QueuedFate(p, t)) ==>
          q.encodeSize == t.native.value && (q.policyReset ==> t.policyWants))
    && InputIsUsed(p, t, q)
    && (p.encoder.initialized && PollFails(p.encoder, t) ==> Renewed(q.encoder, t.recovery))
    && (p.queue.Some? && QueuedFate(p, t) == Lost ==> RestartsWhenLost(MeetingOf(p, t), t, q))
  }

  /** A request for input is used up by the frame that follows it. */
  ghost predicate InputIsUsed(p: Pipeline, t: Turn, q: Pipeline) {
    && (p.queue.Some? && (QueuedFate(p, t) == InFlight || QueuedFate(p, t) == Returned) && q.encoder.asynchronous ==>
          (q.encoder.async.inputRequested <==> NeedInput in t.encoding.after.events))
    && (p.encoder.initialized && p.encoder.asynchronous && !PollFails(p.encoder, t)
        && (p.queue.None? || !ReachesQueue(p, t)) ==>
          (q.encoder.async.inputRequested <==> p.encoder.async.inputRequested || NeedInput in t.polled.events))
  }

  lemma LatestIs(p: Pipeline, t: Turn)
    requires Holds(p)
    ensures var (q, hr, unit) := EncodedLatest(p, t); LatestOutcome(p, t, q, hr, unit)
  {
    hide EncodedFromQueue, CompletedOrReset, FailedEncoder, Polled, CapturedAt, FateAt, RestartsWhenLost;
    NothingQueued(p, t);
    if !p.encoder.initialized {
      if p.queue.Some? {
        QueueIs(p, t);
      }
    } else {
      PollKeeps(p.encoder, t.polled, t.output);
      PollIs(p.encoder, t);
      var (encoder, hr, unit) := Polled(p.encoder, t.polled, t.output);
      var polled := p.(encoder := encoder);
      if hr == Success {
        CompleteKeeps(polled, unit, t);
        CompletionIs(polled, unit, t);
      } else if Fails(hr) {
        FailureIs(polled, hr, t);
      } else {
        NothingQueued(polled, t);
        if CanAcceptFrame(encoder) && p.queue.Some? {
          QueueIs(polled, t);
        }
      }
    }
  }

  lemma NothingQueued(p: Pipeline, t: Turn)
    ensures p.queue.None? ==> EncodedFromQueue(p, t) == (p, SFalse, NO_UNIT)
  {
  }

  lemma CompletionIs(p: Pipeline, unit: AccessUnit, t: Turn)
    requires InRecord(p) == Some(unit.sequence)
    ensures var (q, hr, out) := CompletedOrReset(p, unit, t);
            && q.queue == p.queue && q.pending.None? && hr == Success
            && out.bytes == unit.bytes && out.isIdr == unit.isIdr && out.sequence == unit.sequence
            && q.encoder == p.encoder
  {
  }

  // Runs.

  /** The sequence numbers that came to an end otherwise than by being returned. */
  datatype Book = Book(replaced: seq<nat>, lost: seq<nat>, absorbed: seq<nat>)

  const BLANK := Book([], [], [])

  predicate Captures(p: Pipeline) {
    p.pending.None? && InEncoder(p.encoder) == None
  }

  /** What one call adds to the book. */
  function Entered(p: Pipeline, call: Call, b: Book): Book {
    match call
    case Start => BLANK
    case Stop => BLANK
    case CaptureOnce(answer) =>
      if !Captures(p) then b
      else if answer.FrameLost? then b.(lost := b.lost + [|p.times| + 1])
      else if answer.FrameReady? && p.queue.Some? then b.(replaced := b.replaced + [p.queue.value.sequence])
      else b
    case EncodeLatest(t) =>
      if p.pending.Some? then
        if InFlightFate(p, call) == Lost then b.(lost := b.lost + [p.pending.value.sequence]) else b
      else if p.queue.Some? && QueuedFate(p, t) == Lost then b.(lost := b.lost + [p.queue.value.sequence])
      else if p.queue.Some? && QueuedFate(p, t) == Absorbed then b.(absorbed := b.absorbed + [p.queue.value.sequence])
      else b
    case NotifyWouldBlock(_, _, _) =>
      if p.pending.Some? && InFlightFate(p, call) == Lost then b.(lost := b.lost + [p.pending.value.sequence]) else b
  }

  function BookOf(calls: seq<Call>): Book {
    if calls == [] then BLANK
    else
      var before := calls[..|calls| - 1];
      Entered(Run(before), calls[|calls| - 1], BookOf(before))
  }

  function Waiting(p: Pipeline): seq<nat> {
    if p.queue.Some? then [p.queue.value.sequence] else []
  }

  function Flying(p: Pipeline): seq<nat> {
    if p.pending.Some? then [p.pending.value.sequence] else []
  }

  function Sequences(units: seq<AccessUnit>): seq<nat> {
    if units == [] then [] else Sequences(units[..|units| - 1]) + [units[|units| - 1].sequence]
  }

  function Numbers(n: nat): seq<nat> {
    if n == 0 then [] else Numbers(n - 1) + [n]
  }

  /** Where the numbers are. */
  datatype Places = Places(waiting: seq<nat>, flying: seq<nat>, returned: seq<nat>, book: Book)
  {
    function All(): multiset<nat> {
      multiset(waiting) + multiset(flying) + multiset(returned)
      + multiset(book.replaced) + multiset(book.lost) + multiset(book.absorbed)
    }
  }

  function PlacesOf(p: Pipeline, b: Book): Places {
    Places(Waiting(p), Flying(p), Sequences(p.returned), b)
  }

  /** One number moved on from where it was. */
  ghost predicate MovedOn(x: Places, y: Places) {
    || y == x
    || y == x.(flying := [], returned := x.returned + x.flying)
    || y == x.(flying := [], book := x.book.(lost := x.book.lost + x.flying))
    || (x.flying == [] && y == x.(waiting := [], flying := x.waiting))
    || y == x.(waiting := [], returned := x.returned + x.waiting)
    || y == x.(waiting := [], book := x.book.(lost := x.book.lost + x.waiting))
    || y == x.(waiting := [], book := x.book.(absorbed := x.book.absorbed + x.waiting))
  }

  lemma MovedOnKeepsAll(x: Places, y: Places)
    requires MovedOn(x, y)
    ensures y.All() == x.All()
  {
  }

  lemma SequencesOn(units: seq<AccessUnit>, unit: AccessUnit)
    ensures Sequences(units + [unit]) == Sequences(units) + [unit.sequence]
  {
    assert (units + [unit])[..|units|] == units;
  }

  lemma LatestMovesOn(p: Pipeline, t: Turn, b: Book)
    requires Holds(p)
    ensures var q := Next(p, EncodeLatest(t));
            MovedOn(PlacesOf(p, b), PlacesOf(q, Entered(p, EncodeLatest(t), b))) && q.times == p.times
  {
    hide EncodedLatest, QueuedFate, Sequences, PollFails, PollReturns, Holds, CapturedAt;
    LatestIs(p, t);
    EncodeLatestKeeps(p, t);
    var (q, hr, unit) := EncodedLatest(p, t);
    SequencesOn(p.returned, unit);
  }

  lemma BlockedMovesOn(p: Pipeline, requests: bool, policyWants: bool, setup: Setup, b: Book)
    requires Holds(p)
    ensures var call := NotifyWouldBlock(requests, policyWants, setup);
            MovedOn(PlacesOf(p, b), PlacesOf(Next(p, call), Entered(p, call, b))) && Next(p, call).times == p.times
  {
    hide Sequences, CapturedAt;
    BlockedIs(p, requests, policyWants, setup);
  }

  /** Congestion: whether the encoder is reset, and whether that fails. */
  predicate ResetsWhenBlocked(p: Pipeline, requests: bool, policyWants: bool) {
    requests || (policyWants && p.encoder.initialized)
  }

  predicate ResetFails(p: Pipeline, setup: Setup) {
    !p.encoder.initialized || setup.SetupFails?
  }

  /** Congestion asks the transport for a reset when its policy does, or when the
      reset the resolution policy wants fails; what is in flight is given up with
      any reset, and what waits stays. */
  lemma BlockedIs(p: Pipeline, requests: bool, policyWants: bool, setup: Setup)
    requires Holds(p)
    ensures var (q, action) := Blocked(p, requests, policyWants, setup);
            var resets := ResetsWhenBlocked(p, requests, policyWants);
            && q.queue == p.queue && q.returned == p.returned && q.times == p.times && q.encodeSize == p.encodeSize
            && (action == RequestStreamReset <==> requests || (resets && ResetFails(p, setup)))
            && q.policyReset == (p.policyReset || (policyWants && !(requests && ResetFails(p, setup))))
            && q.pending == (if requests || policyWants then None else p.pending)
            && (!resets ==> q.encoder == p.encoder)
            && (resets && !ResetFails(p, setup) && p.encoder.asynchronous ==>
                  && q.encoder.initialized && InEncoder(q.encoder) == None && !q.encoder.async.faulted
                  && (CanAcceptFrame(q.encoder) <==> MeetsFresh(setup).Meets?))
  {
    hide Initialized;
    SetupIs(setup);
    SetupKeeps(setup);
  }

  /** A new number waits in place of what waited, or is lost at once. */
  ghost predicate ComesIn(x: Places, y: Places, n: nat) {
    || y == x.(waiting := [n], book := x.book.(replaced := x.book.replaced + x.waiting))
    || y == x.(book := x.book.(lost := x.book.lost + [n]))
  }

  lemma ComesInOnTop(x: Places, y: Places, n: nat)
    requires ComesIn(x, y, n)
    ensures y.All() == x.All() + multiset{n}
  {
  }

  lemma CaptureTakesPlace(p: Pipeline, answer: Capture, b: Book)
    ensures var q := CapturedOnce(p, answer).0;
            var x, y := PlacesOf(p, b), PlacesOf(q, Entered(p, CaptureOnce(answer), b));
            if Captures(p) && (answer.FrameLost? || answer.FrameReady?) then
              |q.times| == |p.times| + 1 && q.times[|p.times|] == answer.at && ComesIn(x, y, |q.times|)
            else q.times == p.times && y == x
  {
    hide Sequences;
    assert BLANK.replaced + [] == BLANK.replaced && b.replaced + [] == b.replaced;
  }

  lemma Emptied(p: Pipeline)
    ensures PlacesOf(Stopped(p), BLANK).All() == multiset(Numbers(0)) && Stopped(p).times == []
  {
  }

  lemma EnteredAnew(p: Pipeline, call: Call, b: Book)
    requires call.Start? || call.Stop?
    ensures Entered(p, call, b) == BLANK
  {
  }

  lemma CallKeepsPlaces(p: Pipeline, call: Call, b: Book)
    requires Holds(p) && PlacesOf(p, b).All() == multiset(Numbers(|p.times|))
    ensures var q := Next(p, call); PlacesOf(q, Entered(p, call, b)).All() == multiset(Numbers(|q.times|))
  {
    hide EncodedLatest, Blocked, CapturedOnce, PlacesOf, MovedOn, ComesIn, Entered, Holds;
    var q, c := Next(p, call), Entered(p, call, b);
    match call
    case EncodeLatest(t) =>
      LatestMovesOn(p, t, b);
      MovedOnKeepsAll(PlacesOf(p, b), PlacesOf(q, c));
    case NotifyWouldBlock(requests, policyWants, setup) =>
      BlockedMovesOn(p, requests, policyWants, setup, b);
      MovedOnKeepsAll(PlacesOf(p, b), PlacesOf(q, c));
    case CaptureOnce(answer) =>
      CaptureTakesPlace(p, answer, b);
      if |q.times| > |p.times| {
        ComesInOnTop(PlacesOf(p, b), PlacesOf(q, c), |q.times|);
      }
    case Start =>
      Emptied(p);
      EnteredAnew(p, call, b);
    case Stop =>
      Emptied(p);
      EnteredAnew(p, call, b);
  }

  /** Between Start and Stop every captured number is in exactly one place: waiting,
      in flight, returned, replaced by a newer capture, absorbed, or lost. */
  lemma {:induction false} EveryFrameHasItsPlace(calls: seq<Call>)
    ensures PlacesOf(Run(calls), BookOf(calls)).All() == multiset(Numbers(|Run(calls).times|))
  {
    if calls != [] {
      hide PlacesOf, Entered, Next, Holds;
      var before, call := calls[..|calls| - 1], calls[|calls| - 1];
      EveryFrameHasItsPlace(before);
      RunHolds(before);
      CallKeepsPlaces(Run(before), call, BookOf(before));
    }
  }

  /** What a call does with the frame that waits, and with the one in flight. */
  lemma {:induction false} EveryLatestCall(calls: seq<Call>, t: Turn)
    ensures var (q, hr, unit) := EncodedLatest(Run(calls), t);
            q == Run(calls + [EncodeLatest(t)]) && LatestOutcome(Run(calls), t, q, hr, unit)
  {
    hide LatestOutcome, EncodedLatest;
    RunHolds(calls);
    RunOn(calls, EncodeLatest(t));
    LatestIs(Run(calls), t);
  }

  /** A call that returns `SFalse` and has nothing in flight leaves the waiting frame
      where it was, unless a synchronous transform took it and gave nothing. */
  lemma {:induction false} NotTakenStays(calls: seq<Call>, t: Turn)
    requires EncodedLatest(Run(calls), t).1 == SFalse && Run(calls + [EncodeLatest(t)]).pending.None?
    ensures var p, q := Run(calls), Run(calls + [EncodeLatest(t)]);
            q.queue == (if p.queue.Some? && QueuedFate(p, t) == Absorbed then None else p.queue)
  {
    hide Run, EncodedLatest, SetupFails, ReachesQueue, PollFails, PollReturns, FateAt, MeetingOf;
    EveryLatestCall(calls, t);
  }

  /** `replaced_count` since the pipeline was made. */
  function Replacements(calls: seq<Call>): nat {
    if calls == [] then 0
    else
      var before, call := calls[..|calls| - 1], calls[|calls| - 1];
      var p := Run(before);
      Replacements(before)
      + if call.CaptureOnce? && call.answer.FrameReady? && Captures(p) && p.queue.Some? then 1 else 0
  }

  lemma {:induction false} ReplacedAreCounted(calls: seq<Call>)
    ensures Run(calls).replaced == Replacements(calls)
  {
    if calls != [] {
      var before, call := calls[..|calls| - 1], calls[|calls| - 1];
      ReplacedAreCounted(before);
      hide EncodedLatest, Blocked;
      match call
      case EncodeLatest(t) => LatestReplacesNothing(Run(before), t);
      case NotifyWouldBlock(requests, policyWants, setup) =>
        BlockedReplacesNothing(Run(before), requests, policyWants, setup);
      case _ =>
    }
  }

  lemma LatestReplacesNothing(p: Pipeline, t: Turn)
    ensures EncodedLatest(p, t).0.replaced == p.replaced
  {
    hide Polled, Encoded, Initialized, CanAcceptFrame;
  }

  lemma BlockedReplacesNothing(p: Pipeline, requests: bool, policyWants: bool, setup: Setup)
    ensures Blocked(p, requests, policyWants, setup).0.replaced == p.replaced
  {
    hide Initialized;
  }
}
