/** What every step leaves behind, told by the state before it and the answers of
    the codec alone, in every run. */
module DecoderOutcomes {
  import opened Wrappers
  import opened VideoInbox
  import opened AvcDecoding
  import opened DecoderRuns

  // The decoder.

  /** The step gets as far as creating a codec instance: in `configure`, for a
      key frame that meets no codec, or after an error of the codec. */
  predicate Tries(s: Sys, step: Step) {
    Acts(s, step) &&
    match step
    case Configure(width, height, _, raise) => raise > 1 && width > 0 && height > 0
    case Deliver(_, _, _, raise) => (MeetsNoCodec(s) && raise > 1) || (Strikes(s, step) && raise > 3)
    case _ => Strikes(s, step) && step.raise > 3
  }

  /** The delivery holds a key frame, and there is a size but no codec. */
  predicate MeetsNoCodec(s: Sys)
    requires s.stage.Took?
  {
    s.stage.delivery.frame.keyFrame && s.decoder.codec.None? && s.decoder.width > 0 && s.decoder.height > 0
  }

  /** The answer to that creation. */
  predicate Starts(s: Sys, step: Step) {
    match step
    case Configure(_, _, created, _) => created
    case Deliver(created, _, recreated, _) => if s.decoder.codec.None? then created else recreated
    case SlotAvailable(_, _, _, recreated, _) => recreated
    case OutputReady(_, _, recreated, _) => recreated
    case CodecError(_, recreated, _) => recreated
    case _ => false
  }

  /** The step gives up the codec, its slots and the pending frame. */
  predicate Releases(s: Sys, step: Step) {
    || (Acts(s, step) && step.Configure?)
    || (Strikes(s, step) && step.raise > 2)
    || ClosesDecoder(s, step)
  }

  predicate ClosesDecoder(s: Sys, step: Step) {
    step.CloseOnThread? && s.stage == Waiting && s.closing == InboxClosed
  }

  function CodecAfter(s: Sys, step: Step): Option<nat> {
    if Tries(s, step) then if Starts(s, step) then Some(s.decoder.created) else None
    else if Releases(s, step) then None
    else s.decoder.codec
  }

  function PhaseAfter(s: Sys, step: Step): Phase {
    if ClosesDecoder(s, step) then Closed
    else if Releases(s, step) then AwaitingIdr
    else if QueuedBy(s, step) > 0 && Using(s, step).value.keyFrame then Running
    else if Acts(s, step) && step.Deliver? then Judging(s)
    else s.decoder.phase
  }

  /** A delivered frame waits when there is a codec that may decode it, and no
      slot takes it. */
  function PendingAfter(s: Sys, step: Step): Option<Frame> {
    if Releases(s, step) || QueuedBy(s, step) > 0 then None
    else if Acts(s, step) && step.Deliver? && CodecAfter(s, step).Some?
            && Decodes(Judging(s), s.stage.delivery.frame.keyFrame) then Some(s.stage.delivery.frame)
    else s.decoder.pending
  }

  /** Slots are used oldest first. */
  function SlotsAfter(s: Sys, step: Step): seq<int> {
    if Releases(s, step) then []
    else
      var slots := s.decoder.slots + if Acts(s, step) && step.SlotAvailable? then [step.index] else [];
      if Using(s, step).Some? && slots != [] then slots[1..] else slots
  }

  /** The state in which a step leaves the decoder. */
  ghost predicate Outcome(s: Sys, step: Step, h: Decoder) {
    var d := s.decoder;
    var queued := if QueuedBy(s, step) > 0 then [Queued(d.codec.value, Using(s, step).value)] else [];
    && h.codec == CodecAfter(s, step) && h.created == d.created + (if Tries(s, step) then 1 else 0)
    && h.phase == PhaseAfter(s, step) && h.pending == PendingAfter(s, step) && h.slots == SlotsAfter(s, step)
    && (h.width, h.height)
       == (if Acts(s, step) && step.Configure? then (step.width, step.height) else (d.width, d.height))
    && h.queued == d.queued + queued
  }

  // One command.

  lemma CreationLeaves(d: Decoder, closed: bool, ok: bool)
    requires d.phase == AwaitingIdr && d.codec.None? && d.pending.None? && d.slots == []
    ensures var h, tried := CreatedCodec(d, closed, ok), !closed && d.width > 0 && d.height > 0;
            && h.codec == (if tried && ok then Some(d.created) else None)
            && h.created == d.created + (if tried then 1 else 0)
            && h.phase == AwaitingIdr && h.pending.None? && h.slots == []
            && h.width == d.width && h.height == d.height && h.queued == d.queued
  {
  }

  lemma ErrorLeaves(d: Decoder, r: Reads, ok: bool)
    requires d.codec.Some? && d.phase != Closed && d.width > 0 && d.height > 0 && !r.failure
    ensures var h := HandledCodecError(d, r, ok);
            && h.codec == (if !r.recreate && ok then Some(d.created) else None)
            && h.created == d.created + (if r.recreate then 0 else 1)
            && h.phase == AwaitingIdr && h.pending.None? && h.slots == []
            && h.width == d.width && h.height == d.height && h.queued == d.queued
  {
    hide CreatedCodec;
    var lost := d.(phase := AfterError(d.phase), reported := d.reported + Count(d.pending),
                   pending := None, slots := [], idrRequested := false);
    CreationLeaves(Released(lost), r.recreate, ok);
  }

  /** The decoder at the head of a drain: what became of the slot, the frame and the codec. */
  lemma DrainLeaves(d: Decoder, r: Reads, slot: InputSlot, recreated: bool)
    requires d.codec.Some? && d.phase != Closed && d.phase != Idle && d.width > 0 && d.height > 0
    requires d.pending.Some? && d.slots != []
    ensures var h, frame := DrainedInput(d, r, slot, recreated), d.pending.value;
            && h.width == d.width && h.height == d.height
            && if TakenBy(frame, slot) then
                 && h.codec == d.codec && h.created == d.created && h.pending.None? && h.slots == d.slots[1..]
                 && h.phase == (if frame.keyFrame then Running else d.phase)
                 && h.queued == d.queued + [Queued(d.codec.value, frame)]
               else if r.failure then
                 && h.codec == d.codec && h.created == d.created && h.pending == d.pending && h.slots == d.slots[1..]
                 && h.phase == d.phase && h.queued == d.queued
               else
                 && h.codec == (if !r.recreate && recreated then Some(d.created) else None)
                 && h.created == d.created + (if r.recreate then 0 else 1)
                 && h.phase == AwaitingIdr && h.pending.None? && h.slots == [] && h.queued == d.queued
  {
    hide HandledCodecError;
    var used := d.(slots := d.slots[1..]);
    if !TakenBy(d.pending.value, slot) {
      if !r.failure {
        ErrorLeaves(used, r, recreated);
      } else {
        UnhandledError(used, r, recreated);
      }
    }
  }

  lemma UnhandledError(d: Decoder, r: Reads, ok: bool)
    requires r.failure
    ensures HandledCodecError(d, r, ok) == d
  {
  }

  lemma ConfigureLeaves(s: Sys, step: Step)
    requires Holds(s) && Acts(s, step) && step.Configure?
    ensures Outcome(s, step, Next(s, step).decoder)
  {
    hide Holds, CreatedCodec;
    assert s.decoder.phase != Closed by {
      OpenDecoderIsSafe(s);
    }
    var r := ReadsOf(false, step.raise);
    var released := Released(s.decoder.(width := step.width, height := step.height));
    CreationLeaves(released.(idrRequested := false, phase := AwaitingIdr), r.create, step.created);
  }

  /** In a state of a run, before a command that acts on the live codec. */
  lemma LiveCodecHas(s: Sys, step: Step)
    requires Holds(s) && Acts(s, step)
    ensures var d := s.decoder;
            && d.phase != Closed
            && (d.codec.Some? ==> d.phase != Idle && d.width > 0 && d.height > 0)
            && (d.codec.None? ==> d.phase != Running && d.pending.None? && d.slots == [])
            && (d.phase == Idle ==> d.width <= 0)
            && (step.Deliver? ==> d.pending.None?)
  {
  }

  lemma ErrorStepLeaves(s: Sys, step: Step)
    requires Holds(s) && Acts(s, step) && (step.OutputReady? || step.CodecError?)
    ensures Outcome(s, step, Next(s, step).decoder)
  {
    hide Holds, HandledCodecError;
    LiveCodecHas(s, step);
    var d, r := s.decoder, ReadsOf(false, step.raise);
    if Strikes(s, step) {
      if r.failure {
        UnhandledError(d, r, step.recreated);
      } else {
        ErrorLeaves(d, r, step.recreated);
      }
    }
  }

  lemma SlotStepLeaves(s: Sys, step: Step)
    requires Holds(s) && Acts(s, step) && step.SlotAvailable?
    ensures Outcome(s, step, Next(s, step).decoder)
  {
    hide Holds, DrainedInput;
    LiveCodecHas(s, step);
    var d, r := s.decoder, ReadsOf(false, step.raise);
    var more := d.(slots := d.slots + [step.index]);
    if d.pending.Some? {
      DrainLeaves(more, r, step.slot, step.recreated);
    } else {
      NothingToDrain(more, r, step.slot, step.recreated);
    }
  }

  lemma NothingToDrain(d: Decoder, r: Reads, slot: InputSlot, recreated: bool)
    requires d.pending.None? || d.slots == []
    ensures DrainedInput(d, r, slot, recreated) == d
  {
  }

  lemma PreparationLeaves(d: Decoder, r: Reads, delivery: Delivery, created: bool)
    requires d.phase != Closed && d.pending.None?
    requires d.codec.None? ==> d.phase != Running && d.slots == []
    requires d.phase == Idle ==> d.width <= 0
    ensures var h := Prepared(d, r, delivery, created);
            var revives := delivery.frame.keyFrame && d.codec.None? && !r.create && d.width > 0 && d.height > 0;
            && h.codec == (if revives then if created then Some(d.created) else None else d.codec)
            && h.created == d.created + (if revives then 1 else 0)
            && h.phase == (if delivery.dropped > 0 then AwaitingIdr else d.phase)
            && h.pending.None? && h.slots == d.slots
            && h.width == d.width && h.height == d.height && h.queued == d.queued
  {
    hide CreatedCodec;
    var ready := if delivery.dropped > 0 then RecoveredReferences(d.(reported := d.reported + delivery.dropped)) else d;
    if ready.codec.None? && delivery.frame.keyFrame {
      if ready.phase == AwaitingIdr {
        CreationLeaves(ready, r.create, created);
      } else {
        NoCreation(ready, r.create, created);
      }
    }
  }

  lemma NoCreation(d: Decoder, closed: bool, ok: bool)
    requires d.width <= 0 || d.height <= 0
    ensures CreatedCodec(d, closed, ok) == d
  {
  }

  lemma AdmissionLeaves(d: Decoder, r: Reads, frame: Frame, slot: InputSlot, recreated: bool)
    requires d.phase != Closed && d.pending.None? && (d.codec.None? ==> d.phase != Running)
    requires d.codec.Some? ==> d.phase != Idle && d.width > 0 && d.height > 0
    ensures var h, judged := Admitted(d, r, frame, slot, recreated), d.codec.Some? && Decodes(d.phase, frame.keyFrame);
            var taken := judged && d.slots != [] && TakenBy(frame, slot);
            var lost := judged && d.slots != [] && !TakenBy(frame, slot) && !r.failure;
            && h.codec == (if !lost then d.codec else if !r.recreate && recreated then Some(d.created) else None)
            && h.created == d.created + (if lost && !r.recreate then 1 else 0)
            && h.phase == (if lost then AwaitingIdr else if taken && frame.keyFrame then Running else d.phase)
            && h.pending == (if judged && !taken && !lost then Some(frame) else None)
            && h.slots == (if lost then [] else if judged && d.slots != [] then d.slots[1..] else d.slots)
            && h.width == d.width && h.height == d.height
            && h.queued == d.queued + (if taken then [Queued(d.codec.value, frame)] else [])
  {
    hide DrainedInput;
    if d.codec.Some? && Decodes(d.phase, frame.keyFrame) {
      var waiting := d.(pending := Some(frame));
      if d.slots == [] {
        NothingToDrain(waiting, r, slot, recreated);
      } else {
        DrainLeaves(waiting, r, slot, recreated);
      }
    }
  }

  lemma DeliverStepLeaves(s: Sys, step: Step)
    requires Holds(s) && Acts(s, step) && step.Deliver?
    ensures Outcome(s, step, Next(s, step).decoder)
  {
    hide Holds, Prepared, Admitted, Next;
    LiveCodecHas(s, step);
    var d, r, delivery := s.decoder, ReadsOf(false, step.raise), s.stage.delivery;
    var prepared := Prepared(d, r, delivery, step.created);
    PreparationLeaves(d, r, delivery, step.created);
    AdmissionLeaves(prepared, r, delivery.frame, step.slot, step.recreated);
    DeliveryIs(s, step);
  }

  lemma OtherStepLeaves(s: Sys, step: Step)
    requires Holds(s) && !Acts(s, step)
    ensures Outcome(s, step, Next(s, step).decoder)
  {
    NotActing(s, step);
    hide Next, Sound, ChainContinues, InboxHolds, WakeupHolds, StageHolds;
  }

  lemma NotActing(s: Sys, step: Step)
    requires !Acts(s, step)
    ensures Next(s, step).decoder == if ClosesDecoder(s, step) then ClosedOnThread(s.decoder) else s.decoder
  {
    hide Prepared, Admitted, HandledCodecError, DrainedInput, CreatedCodec, RequestedIdrOnce, Released;
  }

  lemma StepLeaves(s: Sys, step: Step)
    requires Holds(s)
    ensures Outcome(s, step, Next(s, step).decoder)
  {
    hide Holds, Next, Outcome;
    if !Acts(s, step) {
      OtherStepLeaves(s, step);
    } else {
      match step
      case Configure(_, _, _, _) => ConfigureLeaves(s, step);
      case SlotAvailable(_, _, _, _, _) => SlotStepLeaves(s, step);
      case Deliver(_, _, _, _) => DeliverStepLeaves(s, step);
      case OutputReady(_, _, _, _) => ErrorStepLeaves(s, step);
      case CodecError(_, _, _) => ErrorStepLeaves(s, step);
    }
  }

  // Every run.

  /** After any steps, one more leaves the decoder with exactly this codec, phase,
      pending frame, slots and queued frames. */
  lemma {:induction false} EveryStepLeaves(steps: seq<Step>, step: Step)
    ensures Outcome(Run(steps), step, Run(steps + [step]).decoder)
  {
    hide Outcome, Next;
    RunHolds(steps);
    RunOn(steps, step);
    StepLeaves(Run(steps), step);
  }

  /** An error of the live codec that is handled leaves a new instance if and only
      if the flag stays down and it starts; always without slots, waiting for an IDR. */
  lemma {:induction false} ErrorBringsNewCodec(steps: seq<Step>, step: Step)
    requires Strikes(Run(steps), step) && step.raise > 2
    ensures var d, h := Run(steps).decoder, Run(steps + [step]).decoder;
            && h.codec == (if step.raise > 3 && step.recreated then Some(d.created) else None)
            && h.created == d.created + (if step.raise > 3 then 1 else 0)
            && h.slots == [] && h.pending.None? && h.phase == AwaitingIdr
  {
    hide Run, Using, Holds;
    EveryStepLeaves(steps, step);
    RunHolds(steps);
    LiveCodecHas(Run(steps), step);
    assert Run(steps).decoder.codec.Some? by {
      StruckIsLive(Run(steps), step);
    }
  }

  lemma StruckIsLive(s: Sys, step: Step)
    requires Strikes(s, step)
    ensures s.decoder.codec.Some?
  {
  }

  /** `configure` leaves an instance if and only if its size is positive, the flag
      stays down and the instance starts. */
  lemma {:induction false} ConfigureBringsCodec(steps: seq<Step>, step: Step)
    requires Acts(Run(steps), step) && step.Configure?
    ensures var d, h := Run(steps).decoder, Run(steps + [step]).decoder;
            && (h.codec.Some? <==> step.raise > 1 && step.width > 0 && step.height > 0 && step.created)
            && (h.codec.Some? ==> h.codec == Some(d.created) && h.created == d.created + 1)
            && h.slots == [] && h.pending.None? && h.phase == AwaitingIdr
  {
    hide Run;
    EveryStepLeaves(steps, step);
  }

  /** A key frame that meets no codec brings one back under the same condition, and
      then waits for its first slot. */
  lemma {:induction false} KeyFrameBringsCodec(steps: seq<Step>, step: Step)
    requires Acts(Run(steps), step) && step.Deliver?
    requires Run(steps).decoder.codec.None? && Run(steps).stage.delivery.frame.keyFrame
    ensures var d, h := Run(steps).decoder, Run(steps + [step]).decoder;
            && (h.codec.Some? <==> step.raise > 1 && d.width > 0 && d.height > 0 && step.created)
            && (h.codec.Some? ==>
                  && h.codec == Some(d.created) && h.created == d.created + 1
                  && h.pending == Some(Run(steps).stage.delivery.frame) && h.phase == AwaitingIdr)
            && h.queued == d.queued
  {
    hide Run;
    EveryStepLeaves(steps, step);
    RunHolds(steps);
    LiveCodecHas(Run(steps), step);
  }

  // The inbox.

  /** The frames the inbox accepted, in order. */
  function Accepted(steps: seq<Step>): seq<Frame> {
    if steps == [] then []
    else
      var before, last := steps[..|steps| - 1], steps[|steps| - 1];
      var accepted := Accepted(before);
      if last.Offer? && !Run(before).inbox.closed then
        accepted + [Frame(|accepted|, last.bytes, last.timestampUs, last.keyFrame)]
      else accepted
  }

  function FrameOf(s: Sys, step: Step): Frame
    requires step.Offer?
  {
    Frame(s.offered, step.bytes, step.timestampUs, step.keyFrame)
  }

  /** Until the inbox is closed an offer to a full one leaves the new frame alone and
      adds four to the gap; otherwise the frame is appended.  Taking removes the
      oldest frame and the gap, and nothing else changes either. */
  lemma InboxLeaves(s: Sys, step: Step)
    requires Holds(s) && Next(s, step).closing == Open
    ensures var x, y := s.inbox, Next(s, step).inbox;
            && Next(s, step).offered == s.offered + (if step.Offer? then 1 else 0)
            && if step.Offer? then
                 && y.frames == (if |x.frames| == 4 then [FrameOf(s, step)] else x.frames + [FrameOf(s, step)])
                 && y.dropped == x.dropped + (if |x.frames| == 4 then 4 else 0)
               else if step.TakeDelivery? && s.stage == Entered then
                 x.frames != [] && y.frames == x.frames[1..] && y.dropped == 0
               else
                 y.frames == x.frames && y.dropped == x.dropped
  {
    hide Delivered, Commanded, Sound, ChainContinues, WakeupHolds;
    if s.stage == Waiting {
      CommandLeavesInbox(s, step);
    }
  }

  predicate EndsWith(all: seq<Frame>, tail: seq<Frame>) {
    |tail| <= |all| && tail == all[|all| - |tail|..]
  }

  lemma EndsMove(all: seq<Frame>, tail: seq<Frame>, last: Frame)
    requires EndsWith(all, tail)
    ensures EndsWith(all + [last], [last]) && EndsWith(all + [last], tail + [last])
    ensures tail != [] ==> EndsWith(all, tail[1..])
  {
  }

  lemma AcceptedOn(steps: seq<Step>)
    requires steps != [] && |Accepted(steps[..|steps| - 1])| == Run(steps[..|steps| - 1]).offered
    ensures var before, last := steps[..|steps| - 1], steps[|steps| - 1];
            Accepted(steps)
            == Accepted(before) + if last.Offer? && !Run(before).inbox.closed then [FrameOf(Run(before), last)] else []
  {
    hide Run;
    assert Accepted(steps[..|steps| - 1]) + [] == Accepted(steps[..|steps| - 1]);
  }

  /** What is known of the inbox in every state of a run. */
  ghost predicate InboxIs(s: Sys, accepted: seq<Frame>) {
    && |accepted| == s.offered
    && (s.closing == Open ==> s.inbox.dropped % 4 == 0 && EndsWith(accepted, s.inbox.frames))
  }

  lemma InboxStep(s: Sys, step: Step, accepted: seq<Frame>)
    requires Holds(s) && InboxIs(s, accepted)
    ensures InboxIs(Next(s, step),
                    accepted + if step.Offer? && !s.inbox.closed then [FrameOf(s, step)] else [])
  {
    hide Next, Holds, EndsWith;
    OfferCounts(s, step);
    if Next(s, step).closing == Open {
      InboxLeaves(s, step);
      TakingMovesOn(s, step);
      OpenInboxTakes(s);
      OpenInboxStep(s.inbox, Next(s, step).inbox, accepted, step, s.stage == Entered, s.offered);
    }
    if !step.Offer? || s.inbox.closed {
      assert accepted + [] == accepted;
    }
  }

  lemma OpenInboxStep(x: Inbox, y: Inbox, accepted: seq<Frame>, step: Step, entered: bool, offered: nat)
    requires x.dropped % 4 == 0 && EndsWith(accepted, x.frames)
    requires step.Offer? ==>
               var frame := Frame(offered, step.bytes, step.timestampUs, step.keyFrame);
               && y.frames == (if |x.frames| == 4 then [frame] else x.frames + [frame])
               && y.dropped == x.dropped + (if |x.frames| == 4 then 4 else 0)
    requires step.TakeDelivery? && entered ==> x.frames != [] && y.frames == x.frames[1..] && y.dropped == 0
    requires !step.Offer? && !(step.TakeDelivery? && entered) ==> y.frames == x.frames && y.dropped == x.dropped
    ensures y.dropped % 4 == 0
    ensures step.Offer? ==>
              EndsWith(accepted + [Frame(offered, step.bytes, step.timestampUs, step.keyFrame)], y.frames)
    ensures !step.Offer? ==> EndsWith(accepted, y.frames)
  {
    hide EndsWith;
    if step.Offer? {
      EndsMove(accepted, x.frames, Frame(offered, step.bytes, step.timestampUs, step.keyFrame));
    } else if step.TakeDelivery? && entered {
      EndsMove(accepted, x.frames, x.frames[0]);
    }
  }

  lemma {:induction false} InboxOfRun(steps: seq<Step>)
    ensures InboxIs(Run(steps), Accepted(steps))
  {
    if steps != [] {
      hide Next, Holds, EndsWith;
      var before, step := steps[..|steps| - 1], steps[|steps| - 1];
      InboxOfRun(before);
      RunHolds(before);
      AcceptedOn(steps);
      InboxStep(Run(before), step, Accepted(before));
    }
  }

  lemma OpenInboxTakes(s: Sys)
    requires Holds(s) && s.closing == Open
    ensures !s.inbox.closed
  {
  }

  lemma OfferCounts(s: Sys, step: Step)
    ensures Next(s, step).offered == s.offered + if step.Offer? && !s.inbox.closed then 1 else 0
  {
    hide Delivered, Commanded;
    if s.stage == Waiting {
      CommandLeavesInbox(s, step);
    }
  }

  /** Until close, with n frames accepted since the one last taken: the newest
      (n - 1) mod 4 + 1 of them are held, and all others are counted as dropped. */
  lemma {:induction false} BurstsOfFour(steps: seq<Step>)
    requires Run(steps).closing == Open
    ensures var x, n := Run(steps).inbox, |Accepted(steps)| - Cursor(steps);
            && n >= 0
            && x.dropped == (if n == 0 then 0 else (n - 1) / 4 * 4)
            && x.frames == Accepted(steps)[Cursor(steps) + x.dropped..]
  {
    hide Next;
    InboxOfRun(steps);
    NoLostWakeup(steps);
  }

  /** What is lost at an offer is lost together: all that waited, up to the new frame. */
  lemma {:induction false} OverflowLosesAll(steps: seq<Step>, step: Step)
    requires Run(steps + [step]).closing == Open && Run(steps + [step]).inbox.dropped > Run(steps).inbox.dropped
    ensures var x, y := Run(steps).inbox, Run(steps + [step]).inbox;
            && step.Offer? && |x.frames| == 4 && |y.frames| == 1
            && y.frames[0].serial == Run(steps).offered
            && y.dropped == Run(steps).offered - Cursor(steps)
  {
    hide Next;
    RunOn(steps, step);
    RunHolds(steps);
    InboxLeaves(Run(steps), step);
    TakingMovesOn(Run(steps), step);
    NoLostWakeup(steps);
  }

  // Frames are not altered on their way.

  /** The frame is the one that was offered under its serial. */
  predicate Genuine(accepted: seq<Frame>, frame: Frame) {
    frame.serial < |accepted| && accepted[frame.serial] == frame
  }

  /** Whatever waits, is pending or was queued to a codec is a frame as it was offered. */
  lemma {:induction false} FramesAreAsOffered(steps: seq<Step>)
    ensures var s, accepted := Run(steps), Accepted(steps);
            && (forall f | f in s.inbox.frames :: Genuine(accepted, f))
            && (s.stage.Took? ==> Genuine(accepted, s.stage.delivery.frame))
            && (s.decoder.pending.Some? ==> Genuine(accepted, s.decoder.pending.value))
            && (forall k | 0 <= k < |s.decoder.queued| :: Genuine(accepted, s.decoder.queued[k].frame))
  {
    if steps != [] {
      hide Next;
      var before, step := steps[..|steps| - 1], steps[|steps| - 1];
      FramesAreAsOffered(before);
      InboxOfRun(before);
      RunHolds(before);
      StepLeaves(Run(before), step);
      StepKeepsFrames(Run(before), step);
    }
  }

  lemma StepKeepsFrames(s: Sys, step: Step)
    ensures var t := Next(s, step);
            && (forall f | f in t.inbox.frames ::
                  f in s.inbox.frames || (step.Offer? && !s.inbox.closed && f == FrameOf(s, step)))
            && (t.stage.Took? ==> t.stage == s.stage || t.stage.delivery.frame in s.inbox.frames)
  {
    hide Delivered, Commanded;
    if s.stage == Waiting {
      CommandLeavesInbox(s, step);
    }
  }
}
