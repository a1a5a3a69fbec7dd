/** All interleavings of the network thread, the handler thread, the codec's
    callbacks and `close`, as runs of atomic steps, and what every run keeps. */
module DecoderRuns {
  import opened Wrappers
  import opened VideoInbox
  import opened AvcDecoding

  /** Where the handler thread stands: between commands, or inside
      `deliverNextOnThread` before `take`, after it, or after the delivery was handled. */
  datatype Stage = Waiting | Entered | Took(delivery: Delivery) | Finishing

  datatype Closing = Open | Flagged | InboxClosed | Done

  /** `offered` counts the frames the inbox accepted; `owed` the delivery posts a
      thread still has to make; `tasks` the delivery tasks in the handler's queue. */
  datatype Sys = Sys(
    inbox: Inbox, decoder: Decoder, offered: nat, owed: nat, tasks: nat, stage: Stage, closing: Closing)
  {
    predicate IsClosed() {
      closing != Open
    }
  }

  /** In a command, `raise` tells when the caller of `close` raises the flag: just
      before the command's read number `raise`, or not during it when there are
      not that many. */
  datatype Step =
    | Offer(bytes: seq<bv8>, timestampUs: int, keyFrame: bool)
    | PostDelivery
    | CheckDelivery
    | TakeDelivery
    | Deliver(created: bool, slot: InputSlot, recreated: bool, raise: nat)
    | FinishDelivery
    | Configure(width: int, height: int, created: bool, raise: nat)
    | SlotAvailable(source: nat, index: int, slot: InputSlot, recreated: bool, raise: nat)
    | OutputReady(source: nat, released: bool, recreated: bool, raise: nat)
    | CodecError(source: nat, recreated: bool, raise: nat)
    | RaiseClosed
    | CloseInbox
    | CloseOnThread

  const START := Sys(Inbox([], false, 0, false), INITIAL, 0, 0, 0, Waiting, Open)

  const READS := 4

  /** What a command reads: everything from the read at which the flag is up. */
  function ReadsOf(closed: bool, raise: nat): (r: Reads)
    ensures Monotone(r) && (closed ==> r == Reads(true, true, true, true)) && (!closed && raise >= READS ==> r == OPEN)
  {
    Reads(closed || raise <= 0, closed || raise <= 1, closed || raise <= 2, closed || raise <= 3)
  }

  /** After a command that left the decoder in state d. */
  function Ran(s: Sys, d: Decoder, raise: nat): Sys {
    s.(decoder := d, closing := if s.closing == Open && raise < READS then Flagged else s.closing)
  }

  /** One step; a step that is not enabled leaves the system as it is. */
  function Next(s: Sys, step: Step): Sys {
    match step
    case Offer(bytes, timestampUs, keyFrame) =>
      var (inbox, post) := Offered(s.inbox, Frame(s.offered, bytes, timestampUs, keyFrame));
      s.(inbox := inbox, offered := s.offered + (if s.inbox.closed then 0 else 1),
         owed := s.owed + (if post then 1 else 0))
    case PostDelivery =>
      if s.owed == 0 then s
      else s.(owed := s.owed - 1, tasks := s.tasks + (if s.IsClosed() then 0 else 1))
    case RaiseClosed =>
      if s.IsClosed() then s else s.(closing := Flagged)
    case CloseInbox =>
      if s.closing != Flagged then s else s.(inbox := Inbox([], false, 0, true), closing := InboxClosed)
    case _ => OnHandler(s, step)
  }

  /** The handler thread runs one command at a time. */
  function OnHandler(s: Sys, step: Step): Sys {
    match s.stage
    case Entered => if step.TakeDelivery? then TakenOnHandler(s) else s
    case Took(delivery) =>
      if !step.Deliver? then s
      else
        var r := ReadsOf(s.IsClosed(), step.raise);
        var d := Delivered(s.decoder, r, delivery, step.created, step.slot, step.recreated);
        Ran(s, d, step.raise).(stage := Finishing)
    case Finishing =>
      if !step.FinishDelivery? then s
      else
        var (inbox, again) := Finished(s.inbox);
        s.(inbox := inbox, stage := Waiting, owed := s.owed + (if again then 1 else 0))
    case Waiting =>
      match step
      case CheckDelivery => if s.tasks == 0 then s else Checked(s)
      case CloseOnThread =>
        if s.closing != InboxClosed then s else s.(decoder := ClosedOnThread(s.decoder), closing := Done)
      case _ => Commanded(s, step)
  }

  /** The commands besides the delivery. */
  function Commanded(s: Sys, step: Step): Sys {
    match step
    case Configure(width, height, created, raise) =>
      Ran(s, Configured(s.decoder, ReadsOf(s.IsClosed(), raise), width, height, created), raise)
    case SlotAvailable(source, index, slot, recreated, raise) =>
      Ran(s, InputAvailable(s.decoder, ReadsOf(s.IsClosed(), raise), source, index, slot, recreated), raise)
    case OutputReady(source, released, recreated, raise) =>
      Ran(s, OutputAvailable(s.decoder, ReadsOf(s.IsClosed(), raise), source, released, recreated), raise)
    case CodecError(source, recreated, raise) =>
      Ran(s, CodecFailed(s.decoder, ReadsOf(s.IsClosed(), raise), source, recreated), raise)
    case _ => s
  }

  /** A delivery starts, unless the decoder is closed; with a frame pending it
      is posted once more with a delay. */
  function Checked(s: Sys): Sys
    requires s.tasks > 0
  {
    if s.IsClosed() then s.(tasks := s.tasks - 1)
    else if s.decoder.pending.Some? then s
    else s.(tasks := s.tasks - 1, stage := Entered)
  }

  function TakenOnHandler(s: Sys): Sys {
    var (inbox, delivery) := Taken(s.inbox);
    s.(inbox := inbox, stage := if delivery.Some? then Took(delivery.value) else Finishing)
  }

  function Run(steps: seq<Step>): Sys {
    if steps == [] then START else Next(Run(steps[..|steps| - 1]), steps[|steps| - 1])
  }

  // What holds in every state of every run.

  /** The frames queued to each codec instance start with a key frame, and an
      inter frame directly follows, in offer order, the frame queued before it. */
  ghost predicate ReferenceChain(queued: seq<Queued>) {
    forall k | 0 <= k < |queued| :: LinkHolds(queued, k)
  }

  ghost predicate LinkHolds(queued: seq<Queued>, k: nat)
    requires k < |queued|
  {
    || queued[k].frame.keyFrame
    || (k > 0 && queued[k - 1].codec == queued[k].codec && queued[k - 1].frame.serial + 1 == queued[k].frame.serial)
  }

  /** An IDR was requested and no key frame has been queued since. */
  ghost predicate AwaitsKeyFrame(d: Decoder) {
    d.requests != [] && forall k | d.requests[|d.requests| - 1] <= k < |d.queued| :: !d.queued[k].frame.keyFrame
  }

  ghost predicate NeverWaitsSilently(d: Decoder) {
    && d.idrRequested == AwaitsKeyFrame(d)
    && (d.phase == AwaitingIdr ==> AwaitsKeyFrame(d))
    && (d.phase == Running ==> !AwaitsKeyFrame(d))
  }

  ghost predicate CodecAndPhaseAgree(d: Decoder) {
    && (d.codec.None? ==> d.phase != Running && d.pending.None? && d.slots == [])
    && (d.codec.Some? ==> d.phase != Idle && d.phase != Closed && d.codec.value < d.created)
    && (d.codec.Some? ==> d.width > 0 && d.height > 0)
    && (d.pending.Some? && d.phase != Running ==> d.pending.value.keyFrame)
    && (d.phase == Idle ==> d.width <= 0)
    && (forall k | 0 <= k < |d.requests| :: d.requests[k] <= |d.queued|)
  }

  /** The serial the next frame must have to follow the last queued one. */
  function Expected(d: Decoder, next: nat): nat {
    if d.pending.Some? then d.pending.value.serial else next
  }

  /** `next` is the serial of the first frame not yet delivered or lost. */
  ghost predicate ChainContinues(d: Decoder, next: nat) {
    && (d.pending.Some? ==> d.pending.value.serial + 1 == next)
    && (d.phase == Running ==>
          && d.queued != []
          && d.codec == Some(d.queued[|d.queued| - 1].codec)
          && d.queued[|d.queued| - 1].frame.serial + 1 == Expected(d, next))
  }

  ghost predicate Sound(d: Decoder) {
    ReferenceChain(d.queued) && NeverWaitsSilently(d) && CodecAndPhaseAgree(d)
  }

  ghost predicate DecoderSafe(d: Decoder, next: nat) {
    Sound(d) && ChainContinues(d, next)
  }

  function Accounted(d: Decoder): nat {
    |d.queued| + d.reported + d.discarded + Count(d.pending)
  }

  // One command of the handler thread.

  lemma RequestKeepsSafe(d: Decoder, next: nat)
    requires ReferenceChain(d.queued) && CodecAndPhaseAgree(d) && ChainContinues(d, next)
    requires d.phase != Running
    requires d.idrRequested ==> AwaitsKeyFrame(d)
    ensures DecoderSafe(RequestedIdrOnce(d), next) && Accounted(RequestedIdrOnce(d)) == Accounted(d)
    ensures RequestedIdrOnce(d).idrRequested
  {
  }

  lemma CreateKeepsSafe(d: Decoder, closed: bool, ok: bool, next: nat)
    requires ReferenceChain(d.queued) && CodecAndPhaseAgree(d) && ChainContinues(d, next)
    requires d.codec.None? && d.phase != Running && d.phase != Closed && (d.phase == Idle ==> d.width <= 0)
    requires d.idrRequested ==> AwaitsKeyFrame(d)
    ensures var c := CreatedCodec(d, closed, ok);
            && ReferenceChain(c.queued) && CodecAndPhaseAgree(c) && ChainContinues(c, next)
            && c.phase == d.phase && c.pending.None? && (c.idrRequested ==> AwaitsKeyFrame(c))
            && (d.idrRequested ==> c.idrRequested)
            && Accounted(c) == Accounted(d)
  {
  }

  lemma ErrorKeepsSafe(d: Decoder, r: Reads, ok: bool, next: nat)
    requires DecoderSafe(d, next) && d.codec.Some?
    ensures var h := HandledCodecError(d, r, ok);
            && DecoderSafe(h, next) && Accounted(h) == Accounted(d) && h.discarded == d.discarded
            && (d.phase != Closed ==> h.phase != Closed)
  {
    if !r.failure {
      var lost := d.(phase := AfterError(d.phase), reported := d.reported + Count(d.pending),
                     pending := None, slots := [], idrRequested := false);
      CreateKeepsSafe(Released(lost), r.recreate, ok, next);
      RequestKeepsSafe(CreatedCodec(Released(lost), r.recreate, ok), next);
    }
  }

  lemma DrainKeepsSafe(d: Decoder, r: Reads, slot: InputSlot, recreated: bool, next: nat)
    requires DecoderSafe(d, next)
    ensures var h := DrainedInput(d, r, slot, recreated);
            && DecoderSafe(h, next) && Accounted(h) == Accounted(d) && h.discarded == d.discarded
            && (d.phase != Closed ==> h.phase != Closed)
  {
    if d.codec.Some? && d.pending.Some? && d.slots != [] {
      var used := d.(slots := d.slots[1..]);
      var frame := d.pending.value;
      if !Fits(frame, slot) {
        assert NeverWaitsSilently(used);
        ErrorKeepsSafe(used, r, recreated, next);
      } else {
        var h := DrainedInput(d, r, slot, recreated);
        var last := |d.queued|;
        assert h.queued[..last] == d.queued;
        forall k | 0 <= k < |h.queued| ensures LinkHolds(h.queued, k) {
          if k < last {
            assert LinkHolds(d.queued, k);
          }
        }
        QueueingSettlesRequest(d, h, frame);
      }
    }
  }

  lemma QueueingSettlesRequest(d: Decoder, h: Decoder, frame: Frame)
    requires NeverWaitsSilently(d) && CodecAndPhaseAgree(d) && d.codec.Some?
    requires d.pending == Some(frame)
    requires h.queued == d.queued + [Queued(d.codec.value, frame)] && h.requests == d.requests
    requires h.phase == AfterQueued(d.phase, frame.keyFrame)
    requires h.idrRequested == if frame.keyFrame then false else d.idrRequested
    ensures NeverWaitsSilently(h)
  {
    assert h.queued[|d.queued|].frame == frame;
    if frame.keyFrame {
      assert !AwaitsKeyFrame(h);
    } else if AwaitsKeyFrame(h) {
      forall k | d.requests[|d.requests| - 1] <= k < |d.queued| ensures !d.queued[k].frame.keyFrame {
        assert h.queued[k] == d.queued[k];
      }
    }
  }

  lemma ConfigureKeepsSafe(d: Decoder, r: Reads, width: int, height: int, ok: bool, next: nat)
    requires DecoderSafe(d, next) && (!r.entry ==> d.phase != Closed)
    ensures var h := Configured(d, r, width, height, ok);
            DecoderSafe(h, next) && Accounted(h) == Accounted(d) && (d.phase != Closed ==> h.phase != Closed)
  {
    if !r.entry {
      var awaiting := Released(d.(width := width, height := height)).(idrRequested := false, phase := AwaitingIdr);
      CreateKeepsSafe(awaiting, r.create, ok, next);
      RequestKeepsSafe(CreatedCodec(awaiting, r.create, ok), next);
    }
  }

  /** After a gap the decoder waits for a key frame, so any frame may follow. */
  lemma RecoverKeepsSafe(d: Decoder, dropped: nat, next: nat, later: nat)
    requires d.pending.None? && d.phase != Closed && dropped > 0
    requires DecoderSafe(d, next)
    ensures var r := RecoveredReferences(d.(reported := d.reported + dropped));
            && DecoderSafe(r, later) && r.pending.None? && r.phase != Closed
            && Accounted(r) == Accounted(d) + dropped && r.discarded == d.discarded
  {
    hide ReferenceChain, LinkHolds;
    RequestKeepsSafe(d.(phase := AwaitingIdr, reported := d.reported + dropped, idrRequested := false), later);
  }

  lemma CreateForKeyKeepsSafe(d: Decoder, closed: bool, created: bool, next: nat)
    requires d.pending.None? && d.phase != Closed && d.codec.None? && DecoderSafe(d, next)
    ensures var c := CreatedCodec(d, closed, created);
            && DecoderSafe(c, next) && c.pending.None? && c.phase != Closed
            && Accounted(c) == Accounted(d) && c.discarded == d.discarded
  {
    hide ReferenceChain, LinkHolds;
    CreateKeepsSafe(d, closed, created, next);
  }

  lemma PrepareKeepsSafe(d: Decoder, r: Reads, delivery: Delivery, created: bool)
    requires d.pending.None? && d.phase != Closed
    requires delivery.dropped <= delivery.frame.serial
    requires DecoderSafe(d, delivery.frame.serial - delivery.dropped)
    ensures var h := Prepared(d, r, delivery, created);
            && DecoderSafe(h, delivery.frame.serial) && h.pending.None? && h.phase != Closed
            && Accounted(h) == Accounted(d) + delivery.dropped && h.discarded == d.discarded
  {
    hide DecoderSafe, CreatedCodec, RecoveredReferences;
    var next := delivery.frame.serial;
    if delivery.dropped > 0 {
      RecoverKeepsSafe(d, delivery.dropped, next - delivery.dropped, next);
    }
    var ready := if delivery.dropped > 0 then RecoveredReferences(d.(reported := d.reported + delivery.dropped)) else d;
    if ready.codec.None? && delivery.frame.keyFrame {
      CreateForKeyKeepsSafe(ready, r.create, created, next);
    }
  }

  lemma RefusalKeepsSafe(d: Decoder, frame: Frame)
    requires d.pending.None? && d.phase != Closed && DecoderSafe(d, frame.serial)
    requires d.codec.None? || !Accepts(d.phase, frame.keyFrame)
    ensures var h := RequestedIdrOnce(d.(reported := d.reported + 1));
            && DecoderSafe(h, frame.serial + 1) && h.phase != Closed
            && Accounted(h) == Accounted(d) + 1 && h.discarded == d.discarded
  {
    hide ReferenceChain, LinkHolds;
    RequestKeepsSafe(d.(reported := d.reported + 1), frame.serial + 1);
  }

  lemma PendingKeepsSafe(d: Decoder, frame: Frame)
    requires d.pending.None? && DecoderSafe(d, frame.serial) && d.codec.Some? && Accepts(d.phase, frame.keyFrame)
    ensures var h := d.(pending := Some(frame));
            DecoderSafe(h, frame.serial + 1) && Accounted(h) == Accounted(d) + 1
  {
    hide ReferenceChain, LinkHolds;
  }

  lemma AdmitKeepsSafe(d: Decoder, r: Reads, frame: Frame, slot: InputSlot, recreated: bool)
    requires d.pending.None? && d.phase != Closed && DecoderSafe(d, frame.serial)
    ensures var h := Admitted(d, r, frame, slot, recreated);
            && DecoderSafe(h, frame.serial + 1) && h.phase != Closed
            && Accounted(h) == Accounted(d) + 1 && h.discarded == d.discarded
  {
    hide DecoderSafe, DrainedInput, RequestedIdrOnce, RecoveredReferences;
    if d.codec.None? || !Accepts(d.phase, frame.keyFrame) {
      RefusalKeepsSafe(d, frame);
    } else {
      PendingKeepsSafe(d, frame);
      DrainKeepsSafe(d.(pending := Some(frame)), r, slot, recreated, frame.serial + 1);
    }
  }

  /** A delivery whose own check passes, wherever the flag goes up after that. */
  lemma DeliveryKeepsSafe(d: Decoder, r: Reads, delivery: Delivery, created: bool, slot: InputSlot, recreated: bool)
    requires d.pending.None? && d.phase != Closed && !r.entry
    requires delivery.dropped <= delivery.frame.serial
    requires DecoderSafe(d, delivery.frame.serial - delivery.dropped)
    ensures var h := Delivered(d, r, delivery, created, slot, recreated);
            && DecoderSafe(h, delivery.frame.serial + 1) && h.phase != Closed
            && Accounted(h) == Accounted(d) + delivery.dropped + 1 && h.discarded == d.discarded
  {
    hide DecoderSafe, Prepared, Admitted;
    PrepareKeepsSafe(d, r, delivery, created);
    AdmitKeepsSafe(Prepared(d, r, delivery, created), r, delivery.frame, slot, recreated);
  }

  // Every step, and every run.

  /** The serial from which a frame would continue the chain without a gap. */
  function NextSerial(s: Sys): int {
    if s.stage.Took? then s.stage.delivery.frame.serial - s.stage.delivery.dropped
    else s.offered - |s.inbox.frames| - s.inbox.dropped
  }

  function InDelivery(s: Sys): nat {
    if s.stage.Took? then 1 + s.stage.delivery.dropped else 0
  }

  /** Delivery tasks that exist in some form: owed, queued, or running. */
  function Outstanding(s: Sys): nat {
    s.owed + s.tasks + (if s.stage == Waiting then 0 else 1)
  }

  ghost predicate InboxHolds(s: Sys) {
    && |s.inbox.frames| + s.inbox.dropped <= s.offered
    && |s.inbox.frames| <= CAPACITY
    && (s.inbox.dropped > 0 ==> s.inbox.frames != [])
    && (forall k | 0 <= k < |s.inbox.frames| :: s.inbox.frames[k].serial == s.offered - |s.inbox.frames| + k)
  }

  ghost predicate WakeupHolds(s: Sys) {
    && Outstanding(s) == (if s.inbox.scheduled then 1 else 0)
    && (s.inbox.frames != [] ==> s.inbox.scheduled)
    && (s.owed + s.tasks > 0 ==> s.inbox.frames != [])
  }

  ghost predicate StageHolds(s: Sys) {
    && (s.stage.Entered? ==> s.decoder.pending.None? && s.inbox.frames != [])
    && (s.stage.Took? ==>
          && s.decoder.pending.None?
          && s.stage.delivery.dropped <= s.stage.delivery.frame.serial
          && s.stage.delivery.frame.serial + 1 == s.offered - |s.inbox.frames| - s.inbox.dropped)
  }

  ghost predicate Holds(s: Sys) {
    && Sound(s.decoder)
    && (s.closing == Done <==> s.decoder.phase == Closed)
    && (s.closing == Done ==> s.stage == Waiting)
    && (s.closing == Open ==>
          && !s.inbox.closed && InboxHolds(s) && WakeupHolds(s) && StageHolds(s)
          && ChainContinues(s.decoder, NextSerial(s))
          && s.offered == Accounted(s.decoder) + s.inbox.dropped + |s.inbox.frames| + InDelivery(s))
  }

  lemma StepHolds(s: Sys, step: Step)
    requires Holds(s)
    ensures Holds(Next(s, step))
  {
    hide OnHandler;
    match step
    case Offer(bytes, timestampUs, keyFrame) =>
    case PostDelivery =>
    case RaiseClosed =>
    case CloseInbox =>
    case _ => HandlerStepHolds(s, step);
  }

  /** A command that runs between deliveries only has to keep the decoder safe. */
  lemma CommandHolds(s: Sys, d: Decoder, raise: nat)
    requires Holds(s) && s.closing == Open && s.stage == Waiting
    requires DecoderSafe(d, NextSerial(s)) && Accounted(d) == Accounted(s.decoder) && d.phase != Closed
    ensures Holds(Ran(s, d, raise))
  {
  }

  lemma CheckHolds(s: Sys)
    requires Holds(s) && s.stage == Waiting && s.tasks > 0
    ensures Holds(Checked(s))
  {
  }

  lemma TakeHolds(s: Sys)
    requires Holds(s) && s.stage == Entered
    ensures Holds(TakenOnHandler(s))
  {
    if s.closing == Open {
      var (inbox, delivery) := Taken(s.inbox);
      assert delivery == Some(Delivery(s.inbox.frames[0], s.inbox.dropped));
    }
  }

  lemma DeliverHolds(s: Sys, step: Step)
    requires Holds(s) && s.stage.Took? && step.Deliver?
    ensures Holds(OnHandler(s, step))
  {
    hide Prepared, Admitted, ReferenceChain, NeverWaitsSilently, CodecAndPhaseAgree;
    if s.closing == Open && step.raise > 0 {
      var r := ReadsOf(false, step.raise);
      DeliveryKeepsSafe(s.decoder, r, s.stage.delivery, step.created, step.slot, step.recreated);
    }
  }

  lemma CodecCommandHolds(s: Sys, step: Step)
    requires Holds(s) && s.closing == Open && s.stage == Waiting
    ensures Holds(Commanded(s, step))
  {
    hide Holds, DecoderSafe, Configured, DrainedInput, HandledCodecError, Ran;
    OpenDecoderIsSafe(s);
    var next, d := NextSerial(s), s.decoder;
    match step
    case Configure(width, height, created, raise) =>
      ConfigureKeepsSafe(d, ReadsOf(false, raise), width, height, created, next);
      CommandHolds(s, Configured(d, ReadsOf(false, raise), width, height, created), raise);
    case SlotAvailable(source, index, slot, recreated, raise) =>
      if d.codec == Some(source) {
        MoreSlotsKeepSafe(d, index, next);
        DrainKeepsSafe(d.(slots := d.slots + [index]), ReadsOf(false, raise), slot, recreated, next);
      }
      CommandHolds(s, InputAvailable(d, ReadsOf(false, raise), source, index, slot, recreated), raise);
    case OutputReady(source, released, recreated, raise) =>
      if d.codec == Some(source) {
        ErrorKeepsSafe(d, ReadsOf(false, raise), recreated, next);
      }
      CommandHolds(s, OutputAvailable(d, ReadsOf(false, raise), source, released, recreated), raise);
    case CodecError(source, recreated, raise) =>
      if d.codec == Some(source) {
        ErrorKeepsSafe(d, ReadsOf(false, raise), recreated, next);
      }
      CommandHolds(s, CodecFailed(d, ReadsOf(false, raise), source, recreated), raise);
    case _ =>
  }

  lemma MoreSlotsKeepSafe(d: Decoder, index: int, next: nat)
    requires DecoderSafe(d, next) && d.codec.Some?
    ensures var e := d.(slots := d.slots + [index]);
            DecoderSafe(e, next) && Accounted(e) == Accounted(d) && e.discarded == d.discarded
  {
  }

  lemma OpenDecoderIsSafe(s: Sys)
    requires Holds(s) && s.closing == Open && s.stage == Waiting
    ensures NextSerial(s) >= 0 && DecoderSafe(s.decoder, NextSerial(s)) && s.decoder.phase != Closed
  {
  }

  lemma HandlerStepHolds(s: Sys, step: Step)
    requires Holds(s)
    ensures Holds(OnHandler(s, step))
  {
    hide Delivered, Commanded, Checked, TakenOnHandler;
    match s.stage
    case Entered => TakeHolds(s);
    case Took(_) =>
      if step.Deliver? {
        DeliverHolds(s, step);
      }
    case Finishing =>
    case Waiting =>
      if step.CheckDelivery? {
        if s.tasks > 0 {
          CheckHolds(s);
        }
      } else if s.closing == Open {
        CodecCommandHolds(s, step);
      } else {
        CommandsAfterCloseAreQuiet(s, step);
      }
  }

  /** A command that begins when the flag is up does nothing to the decoder. */
  lemma CommandsAfterCloseAreQuiet(s: Sys, step: Step)
    requires s.IsClosed()
    ensures Commanded(s, step) == s
  {
  }

  lemma {:induction false} RunHolds(steps: seq<Step>)
    ensures Holds(Run(steps))
  {
    if steps != [] {
      RunHolds(steps[..|steps| - 1]);
      StepHolds(Run(steps[..|steps| - 1]), steps[|steps| - 1]);
    }
  }

  // The properties, one by one.

  /** Frames j..k went to one codec instance, start with a key frame and are
      consecutive in offer order: the codec can decode the last of them. */
  ghost predicate DecodableFrom(queued: seq<Queued>, j: nat, k: nat)
    requires j <= k < |queued|
  {
    && queued[j].frame.keyFrame
    && forall i | j < i <= k ::
         queued[i].codec == queued[j].codec && queued[i].frame.serial == queued[i - 1].frame.serial + 1
  }

  lemma {:induction false} ChainReachesKeyFrame(queued: seq<Queued>, k: nat)
    requires ReferenceChain(queued) && k < |queued|
    ensures exists j: nat | j <= k :: DecodableFrom(queued, j, k)
  {
    assert LinkHolds(queued, k);
    if queued[k].frame.keyFrame {
      assert DecodableFrom(queued, k, k);
    } else {
      ChainReachesKeyFrame(queued, k - 1);
      var j: nat :| j <= k - 1 && DecodableFrom(queued, j, k - 1);
      assert DecodableFrom(queued, j, k);
    }
  }

  /** In every run, every frame handed to a codec can be decoded by it: it is a
      key frame, or the immediate successor of the frame handed over just before
      it, and the successors lead back to a key frame of the same instance. */
  lemma {:induction false} ReferenceChainSafety(steps: seq<Step>, k: nat)
    requires k < |Run(steps).decoder.queued|
    ensures LinkHolds(Run(steps).decoder.queued, k)
    ensures exists j: nat | j <= k :: DecodableFrom(Run(steps).decoder.queued, j, k)
  {
    RunHolds(steps);
    ChainReachesKeyFrame(Run(steps).decoder.queued, k);
  }

  /** The serial after the frame last taken from the inbox. */
  function Cursor(steps: seq<Step>): nat {
    if steps == [] then 0
    else
      var before := steps[..|steps| - 1];
      var t := Run(steps);
      if Run(before).stage == Entered && t.stage.Took? then t.stage.delivery.frame.serial + 1 else Cursor(before)
  }

  /** One step moves the place behind the frames offered, the gap and the frames
      held only by taking the head. */
  lemma TakingMovesOn(s: Sys, step: Step)
    requires Holds(s) && Next(s, step).closing == Open
    ensures var t := Next(s, step);
            && s.closing == Open
            && (if s.stage == Entered && t.stage.Took? then
                  && t.stage.delivery.frame.serial == s.offered - |s.inbox.frames|
                  && t.stage.delivery.dropped == s.inbox.dropped
                  && t.offered - |t.inbox.frames| - t.inbox.dropped == t.stage.delivery.frame.serial + 1
                else
                  t.offered - |t.inbox.frames| - t.inbox.dropped == s.offered - |s.inbox.frames| - s.inbox.dropped)
  {
    hide Delivered, Commanded, Sound, ChainContinues, WakeupHolds;
    if s.stage == Waiting {
      CommandLeavesInbox(s, step);
    }
  }

  lemma CommandLeavesInbox(s: Sys, step: Step)
    ensures var t := Commanded(s, step);
            && t.inbox == s.inbox && t.offered == s.offered && t.stage == s.stage
            && (t.closing == Open ==> s.closing == Open)
  {
    hide Configured, InputAvailable, OutputAvailable, CodecFailed;
  }

  lemma {:induction false} GapIsBeforeHead(steps: seq<Step>)
    requires Run(steps).closing == Open
    ensures var s := Run(steps);
            && Cursor(steps) + s.inbox.dropped + |s.inbox.frames| == s.offered
            && (s.inbox.frames != [] ==> s.inbox.frames[0].serial == Cursor(steps) + s.inbox.dropped)
            && (s.stage.Took? ==> s.stage.delivery.frame.serial + 1 == Cursor(steps))
  {
    hide Next, Sound, ChainContinues, WakeupHolds;
    RunHolds(steps);
    if steps != [] {
      var before := steps[..|steps| - 1];
      RunHolds(before);
      TakingMovesOn(Run(before), steps[|steps| - 1]);
      GapIsBeforeHead(before);
    }
  }

  /** Until close: queued frames have exactly one delivery under way, at most
      four are held, and the frames dropped unreported are exactly those between
      the frame last taken and the head of the inbox. */
  lemma {:induction false} NoLostWakeup(steps: seq<Step>)
    requires Run(steps).closing == Open
    ensures var s := Run(steps);
            && (s.inbox.frames != [] ==> s.inbox.scheduled)
            && Outstanding(s) <= 1 && (s.inbox.scheduled <==> Outstanding(s) == 1)
            && |s.inbox.frames| <= CAPACITY
            && (s.inbox.dropped > 0 ==> s.inbox.frames != [])
            && Cursor(steps) + s.inbox.dropped + |s.inbox.frames| == s.offered
            && (s.inbox.frames != [] ==> s.inbox.frames[0].serial == Cursor(steps) + s.inbox.dropped)
  {
    RunHolds(steps);
    GapIsBeforeHead(steps);
  }

  /** A delivery reports as dropped exactly the frames between the frame taken
      before it and its own. */
  lemma {:induction false} DeliveryTellsTheGap(steps: seq<Step>)
    requires steps != [] && Run(steps).closing == Open
    requires Run(steps[..|steps| - 1]).stage == Entered && Run(steps).stage.Took?
    ensures var delivery := Run(steps).stage.delivery;
            delivery.frame.serial == Cursor(steps[..|steps| - 1]) + delivery.dropped
  {
    hide Next, Sound, ChainContinues, WakeupHolds;
    var before := steps[..|steps| - 1];
    RunHolds(before);
    TakingMovesOn(Run(before), steps[|steps| - 1]);
    GapIsBeforeHead(before);
  }

  lemma {:induction false} FramesConserved(steps: seq<Step>)
    requires Run(steps).closing == Open
    ensures var s := Run(steps);
            var d := s.decoder;
            s.offered == |d.queued| + d.reported + d.discarded + Count(d.pending)
                         + |s.inbox.frames| + s.inbox.dropped + InDelivery(s)
  {
    RunHolds(steps);
  }

  /** A pending frame vanishes unreported exactly when a command that is not
      refused configures the codec again, or the decoder closes. */
  lemma DiscardsAreReconfigurations(s: Sys, step: Step)
    requires Holds(s)
    ensures var t := Next(s, step);
            && s.decoder.discarded <= t.decoder.discarded <= s.decoder.discarded + 1
            && (t.decoder.discarded != s.decoder.discarded <==>
                  && s.stage == Waiting && s.decoder.pending.Some?
                  && (|| (step.Configure? && s.closing == Open && step.raise > 0)
                      || (step.CloseOnThread? && s.closing == InboxClosed)))
  {
    hide Delivered, Commanded;
    if s.stage.Took? && step.Deliver? && s.closing == Open && step.raise > 0 {
      var r := ReadsOf(false, step.raise);
      DeliveryKeepsSafe(s.decoder, r, s.stage.delivery, step.created, step.slot, step.recreated);
    } else if s.stage.Took? && step.Deliver? {
      var r := ReadsOf(s.IsClosed(), step.raise);
      RefusedDelivery(s.decoder, r, s.stage.delivery, step.created, step.slot, step.recreated);
    } else if s.stage == Waiting && s.closing == Open {
      CommandDiscards(s, step);
    } else if s.stage == Waiting {
      CommandsAfterCloseAreQuiet(s, step);
    }
  }

  lemma RefusedDelivery(d: Decoder, r: Reads, delivery: Delivery, created: bool, slot: InputSlot, recreated: bool)
    requires r.entry
    ensures Delivered(d, r, delivery, created, slot, recreated) == d
  {
  }

  lemma CommandDiscards(s: Sys, step: Step)
    requires Holds(s) && s.stage == Waiting && s.closing == Open
    ensures Commanded(s, step).decoder.discarded
         == s.decoder.discarded + if step.Configure? && step.raise > 0 then Count(s.decoder.pending) else 0
  {
    hide Holds, DecoderSafe, DrainedInput, HandledCodecError;
    OpenDecoderIsSafe(s);
    var next, d := NextSerial(s), s.decoder;
    match step
    case Configure(width, height, created, raise) =>
    case SlotAvailable(source, index, slot, recreated, raise) =>
      if d.codec == Some(source) {
        MoreSlotsKeepSafe(d, index, next);
        DrainKeepsSafe(d.(slots := d.slots + [index]), ReadsOf(false, raise), slot, recreated, next);
      }
    case OutputReady(source, _, recreated, raise) =>
      if d.codec == Some(source) {
        ErrorKeepsSafe(d, ReadsOf(false, raise), recreated, next);
      }
    case CodecError(source, recreated, raise) =>
      if d.codec == Some(source) {
        ErrorKeepsSafe(d, ReadsOf(false, raise), recreated, next);
      }
    case _ =>
  }

  /** Whenever the decoder waits for an IDR one is on order, and while it runs none is. */
  lemma {:induction false} NeverWaitingSilently(steps: seq<Step>)
    ensures var d := Run(steps).decoder;
            && (d.phase == AwaitingIdr ==> AwaitsKeyFrame(d))
            && (d.phase == Running ==> !AwaitsKeyFrame(d) && d.codec.Some?)
            && (d.idrRequested <==> AwaitsKeyFrame(d))
  {
    RunHolds(steps);
  }

  /** The frame of a delivery never meets a pending one, so the decoder's code
      for replacing a pending frame is unreachable. */
  lemma {:induction false} PendingIsNeverReplaced(steps: seq<Step>)
    requires Run(steps).closing == Open && Run(steps).stage.Took?
    ensures Run(steps).decoder.pending.None?
  {
    RunHolds(steps);
  }

  // Closing.

  /** `later` is `earlier` with at most n more elements at its end. */
  ghost predicate AtMostMore<T>(earlier: seq<T>, later: seq<T>, n: nat) {
    earlier <= later && |later| <= |earlier| + n
  }

  /** The slot takes the frame. */
  predicate TakenBy(frame: Frame, slot: InputSlot) {
    slot.Buffer? && |frame.bytes| <= slot.capacity && !slot.queueThrows
  }

  /** A decoder in this phase may decode the frame. */
  predicate Decodes(phase: Phase, keyFrame: bool) {
    phase == Running || (phase == AwaitingIdr && keyFrame)
  }

  /** The step is a command that passed its own check of the flag. */
  predicate Acts(s: Sys, step: Step) {
    s.closing == Open &&
    match step
    case Deliver(_, _, _, raise) => s.stage.Took? && raise > 0
    case Configure(_, _, _, raise) => s.stage == Waiting && raise > 0
    case SlotAvailable(source, _, _, _, raise) => s.stage == Waiting && s.decoder.codec == Some(source) && raise > 0
    case OutputReady(source, _, _, raise) => s.stage == Waiting && s.decoder.codec == Some(source) && raise > 0
    case CodecError(source, _, raise) => s.stage == Waiting && s.decoder.codec == Some(source) && raise > 0
    case _ => false
  }

  /** The phase in which a delivery's frame is judged: a gap comes first. */
  function Judging(s: Sys): Phase
    requires s.stage.Took?
  {
    if s.stage.delivery.dropped > 0 then AwaitingIdr else s.decoder.phase
  }

  /** The frame for which a step uses an input slot, if it does. */
  function Using(s: Sys, step: Step): Option<Frame> {
    if !Acts(s, step) then None
    else if step.Deliver? then
      var frame := s.stage.delivery.frame;
      if s.decoder.codec.Some? && s.decoder.slots != [] && Decodes(Judging(s), frame.keyFrame) then Some(frame)
      else None
    else if step.SlotAvailable? then s.decoder.pending
    else None
  }

  /** How many frames a step queues: one, when a command that passed its own
      check finds a codec, a frame it may decode, and a slot that takes it. */
  function QueuedBy(s: Sys, step: Step): nat {
    var frame := Using(s, step);
    if frame.Some? && TakenBy(frame.value, step.slot) then 1 else 0
  }

  /** An error strikes the live codec: reported by it, by the release of an
      output, or by a slot that does not take its frame. */
  predicate Strikes(s: Sys, step: Step) {
    Acts(s, step) &&
    match step
    case CodecError(_, _, _) => true
    case OutputReady(_, released, _, _) => !released
    case SlotAvailable(_, _, slot, _, _) => Using(s, step).Some? && !TakenBy(Using(s, step).value, slot)
    case Deliver(_, slot, _, _) => Using(s, step).Some? && !TakenBy(Using(s, step).value, slot)
    case _ => false
  }

  /** How many IDRs a step requests.  An error of the codec requests one when
      the flag is still down at the third read of the command. */
  function RequestedBy(s: Sys, step: Step): nat {
    var d := s.decoder;
    if !Acts(s, step) then 0
    else
      (if Strikes(s, step) && step.raise > 2 then 1 else 0)
      + match step
        case Deliver(_, _, _, _) =>
          if s.stage.delivery.dropped > 0 || (d.codec.None? && d.phase == Idle && !d.idrRequested) then 1 else 0
        case Configure(_, _, _, _) => 1
        case _ => 0
  }

  /** `later` is `earlier` with exactly n more elements at its end. */
  ghost predicate More<T>(earlier: seq<T>, later: seq<T>, n: nat) {
    earlier <= later && |later| == |earlier| + n
  }

  lemma CreationRequests(d: Decoder, closed: bool, ok: bool)
    ensures var h := RequestedIdrOnce(CreatedCodec(d, closed, ok));
            && h.queued == d.queued && h.idrRequested
            && More(d.requests, h.requests, if d.idrRequested then 0 else 1)
  {
  }

  lemma ErrorRequests(d: Decoder, r: Reads, ok: bool)
    ensures var h := HandledCodecError(d, r, ok);
            h.queued == d.queued && More(d.requests, h.requests, if r.failure then 0 else 1)
  {
    hide CreatedCodec, RequestedIdrOnce;
    var lost := d.(phase := AfterError(d.phase), reported := d.reported + Count(d.pending),
                   pending := None, slots := [], idrRequested := false);
    CreationRequests(Released(lost), r.recreate, ok);
  }

  lemma DrainDoes(d: Decoder, r: Reads, slot: InputSlot, recreated: bool)
    ensures var h := DrainedInput(d, r, slot, recreated);
            var used := d.codec.Some? && d.pending.Some? && d.slots != [];
            && More(d.queued, h.queued, if used && Fits(d.pending.value, slot) then 1 else 0)
            && More(d.requests, h.requests, if used && !Fits(d.pending.value, slot) && !r.failure then 1 else 0)
  {
    hide HandledCodecError;
    if d.slots != [] {
      ErrorRequests(d.(slots := d.slots[1..]), r, recreated);
    }
  }

  lemma PreparationDoes(d: Decoder, r: Reads, delivery: Delivery, created: bool)
    requires Sound(d) && d.pending.None? && d.phase != Closed
    ensures var h := Prepared(d, r, delivery, created);
            && h.queued == d.queued && More(d.requests, h.requests, if delivery.dropped > 0 then 1 else 0)
            && h.pending.None? && (d.codec.Some? ==> h.codec == d.codec && h.slots == d.slots)
            && (d.codec.None? ==> h.slots == [])
            && h.phase == (if delivery.dropped > 0 then AwaitingIdr else d.phase)
            && (h.phase == AwaitingIdr ==> h.idrRequested) && (h.phase == Idle ==> h.idrRequested == d.idrRequested)
            && (h.phase == Idle ==> h.codec.None?) && (h.phase == Running ==> h.codec.Some?)
  {
    hide ReferenceChain, AwaitsKeyFrame;
    var ready := if delivery.dropped > 0 then RecoveredReferences(d.(reported := d.reported + delivery.dropped)) else d;
    assert ready.phase == AwaitingIdr ==> ready.idrRequested;
  }

  lemma AdmissionDoes(d: Decoder, r: Reads, frame: Frame, slot: InputSlot, recreated: bool)
    requires d.pending.None?
    ensures var h := Admitted(d, r, frame, slot, recreated);
            var judged := d.codec.Some? && Accepts(d.phase, frame.keyFrame);
            && More(d.queued, h.queued, if judged && d.slots != [] && Fits(frame, slot) then 1 else 0)
            && More(d.requests, h.requests,
                    if !judged then if d.idrRequested then 0 else 1
                    else if d.slots != [] && !Fits(frame, slot) && !r.failure then 1 else 0)
  {
    hide DrainedInput;
    DrainDoes(d.(pending := Some(frame)), r, slot, recreated);
  }

  lemma DeliveryIs(s: Sys, step: Step)
    requires Acts(s, step) && step.Deliver?
    ensures var r, delivery := ReadsOf(false, step.raise), s.stage.delivery;
            Next(s, step).decoder
            == Admitted(Prepared(s.decoder, r, delivery, step.created), r, delivery.frame, step.slot, step.recreated)
  {
    hide Prepared, Admitted;
  }

  lemma DeliveryDoes(s: Sys, step: Step)
    requires Holds(s) && s.closing == Open && s.stage.Took? && step.Deliver?
    ensures var d, h := s.decoder, Next(s, step).decoder;
            More(d.queued, h.queued, QueuedBy(s, step)) && More(d.requests, h.requests, RequestedBy(s, step))
  {
    var d, delivery, r := s.decoder, s.stage.delivery, ReadsOf(false, step.raise);
    assert Sound(d) && d.pending.None? && d.phase != Closed;
    hide Prepared, Admitted, Holds, More, TakenBy, Decodes, Next;
    if step.raise > 0 {
      DeliveryIs(s, step);
      PreparationDoes(d, r, delivery, step.created);
      var h := Prepared(d, r, delivery, step.created);
      AdmissionDoes(h, r, delivery.frame, step.slot, step.recreated);
      var t := Admitted(h, r, delivery.frame, step.slot, step.recreated);
      var first := if delivery.dropped > 0 then 1 else 0;
    } else {
      DeliveryIsRefused(s, step);
      NoMore(d.queued);
      NoMore(d.requests);
    }
  }

  lemma DeliveryIsRefused(s: Sys, step: Step)
    requires s.stage.Took? && step.Deliver? && s.closing == Open && step.raise == 0
    ensures Next(s, step).decoder == s.decoder
  {
  }

  lemma NoMore<T>(a: seq<T>)
    ensures More(a, a, 0)
  {
  }

  lemma CommandDoes(s: Sys, step: Step)
    requires s.closing == Open && s.stage == Waiting && !step.CheckDelivery? && !step.CloseOnThread?
    ensures var d, h := s.decoder, Commanded(s, step).decoder;
            More(d.queued, h.queued, QueuedBy(s, step)) && More(d.requests, h.requests, RequestedBy(s, step))
  {
    hide CreatedCodec, RequestedIdrOnce, DrainedInput, HandledCodecError;
    var d := s.decoder;
    match step
    case Configure(width, height, created, raise) =>
      var r := ReadsOf(false, raise);
      var released := Released(d.(width := width, height := height));
      CreationRequests(released.(idrRequested := false, phase := if d.phase == Closed then Closed else AwaitingIdr),
                       r.create, created);
    case SlotAvailable(_, index, slot, recreated, raise) =>
      DrainDoes(d.(slots := d.slots + [index]), ReadsOf(false, raise), slot, recreated);
    case OutputReady(_, _, recreated, raise) => ErrorRequests(d, ReadsOf(false, raise), recreated);
    case CodecError(_, recreated, raise) => ErrorRequests(d, ReadsOf(false, raise), recreated);
    case _ =>
  }

  /** What one step queues and requests, exactly, wherever the flag goes up in it. */
  lemma StepDoes(s: Sys, step: Step)
    requires Holds(s)
    ensures var d, h := s.decoder, Next(s, step).decoder;
            More(d.queued, h.queued, QueuedBy(s, step)) && More(d.requests, h.requests, RequestedBy(s, step))
  {
    hide Delivered, Commanded, Holds;
    if s.IsClosed() {
      ClosedIsQuiet(s, step);
    } else if s.stage.Took? && step.Deliver? {
      DeliveryDoes(s, step);
    } else if s.stage == Waiting && !step.CheckDelivery? && !step.CloseOnThread? {
      CommandDoes(s, step);
    }
  }

  /** Once the flag is up every step leaves the queued frames and the requests alone. */
  lemma ClosedIsQuiet(s: Sys, step: Step)
    requires s.IsClosed()
    ensures var t := Next(s, step);
            t.IsClosed() && t.decoder.queued == s.decoder.queued && t.decoder.requests == s.decoder.requests
  {
    hide Delivered, Commanded;
    CommandsAfterCloseAreQuiet(s, step);
    if s.stage.Took? && step.Deliver? {
      RefusedDelivery(s.decoder, ReadsOf(true, step.raise), s.stage.delivery, step.created, step.slot, step.recreated);
    }
  }

  /** Commands that begin after the flag went up queue nothing and request
      nothing, for the rest of the run. */
  lemma {:induction false} QuietOnceClosed(steps: seq<Step>, k: nat)
    requires k <= |steps| && Run(steps[..k]).IsClosed()
    ensures var s, t := Run(steps[..k]), Run(steps);
            t.IsClosed() && t.decoder.queued == s.decoder.queued && t.decoder.requests == s.decoder.requests
    decreases |steps|
  {
    hide Next;
    if k == |steps| {
      assert steps[..k] == steps;
    } else {
      var before := steps[..|steps| - 1];
      assert before[..k] == steps[..k];
      QuietOnceClosed(before, k);
      ClosedIsQuiet(Run(before), steps[|steps| - 1]);
    }
  }

  /** From the last state with the flag down, at step k, to the end of the run:
      exactly what the command running when the flag goes up still queues and
      requests, and so nothing at all when none is running. */
  lemma {:induction false} OnlyTheRunningCommandFinishes(steps: seq<Step>, k: nat)
    requires k < |steps| && !Run(steps[..k]).IsClosed() && Run(steps[..k + 1]).IsClosed()
    ensures var s := Run(steps[..k]);
            var d, h := s.decoder, Run(steps).decoder;
            && More(d.queued, h.queued, QueuedBy(s, steps[k]))
            && More(d.requests, h.requests, RequestedBy(s, steps[k]))
  {
    hide Next, QueuedBy, RequestedBy, More;
    assert steps[..k + 1][..k] == steps[..k];
    RunHolds(steps[..k]);
    StepDoes(Run(steps[..k]), steps[k]);
    QuietOnceClosed(steps, k + 1);
  }

  /** So something is queued, or requested, after the last state with the flag
      down if and only if the running command passed its own check and the rest
      of the condition holds; and never more than one frame and two requests. */
  lemma {:induction false} WhenTheRunningCommandActs(steps: seq<Step>, k: nat)
    requires k < |steps| && !Run(steps[..k]).IsClosed() && Run(steps[..k + 1]).IsClosed()
    ensures var s := Run(steps[..k]);
            var d, h := s.decoder, Run(steps).decoder;
            && (h.queued != d.queued <==> QueuedBy(s, steps[k]) > 0)
            && (h.requests != d.requests <==> RequestedBy(s, steps[k]) > 0)
            && AtMostMore(d.queued, h.queued, 1) && AtMostMore(d.requests, h.requests, 2)
  {
    hide Next, Run;
    OnlyTheRunningCommandFinishes(steps, k);
  }

  lemma DoneIsFinal(s: Sys, step: Step)
    requires Holds(s) && s.closing == Done
    ensures var t := Next(s, step);
            t.closing == Done && t.decoder == s.decoder && s.decoder.codec.None? && s.decoder.phase == Closed
  {
    hide Commanded;
    CommandsAfterCloseAreQuiet(s, step);
  }

  /** After the last command nothing happens to the decoder any more: it has no
      codec, and stays closed, for the rest of the run. */
  lemma {:induction false} NothingAfterDone(steps: seq<Step>, k: nat)
    requires k <= |steps| && Run(steps[..k]).closing == Done
    ensures var s, t := Run(steps[..k]), Run(steps);
            && t.closing == Done && t.decoder == s.decoder
            && t.decoder.codec.None? && t.decoder.pending.None? && t.decoder.phase == Closed
    decreases |steps|
  {
    hide Next;
    RunHolds(steps[..k]);
    if k == |steps| {
      assert steps[..k] == steps;
    } else {
      var before := steps[..|steps| - 1];
      assert before[..k] == steps[..k];
      NothingAfterDone(before, k);
      RunHolds(before);
      DoneIsFinal(Run(before), steps[|steps| - 1]);
    }
  }

  // Runs that show what can happen.

  lemma RunOn(steps: seq<Step>, step: Step)
    ensures Run(steps + [step]) == Next(Run(steps), step)
  {
    assert (steps + [step])[..|steps|] == steps;
  }

  /** A configured decoder that has seen no frame yet. */
  ghost predicate Fresh(d: Decoder) {
    && d.phase == AwaitingIdr && d.codec == Some(0) && d.pending.None?
    && d.queued == [] && d.reported == 0 && d.discarded == 0
  }

  /** Its first frame is a key frame and waits in the inbox. */
  ghost predicate KeyOffered(s: Sys) {
    && s.closing == Open && s.stage == Waiting && s.tasks == 1 && Fresh(s.decoder)
    && |s.inbox.frames| == 1 && s.inbox.dropped == 0
    && s.inbox.frames[0].keyFrame && s.inbox.frames[0].bytes == []
  }

  ghost predicate KeyTaken(s: Sys) {
    && s.closing == Open && s.stage.Took? && Fresh(s.decoder)
    && s.stage.delivery.dropped == 0 && s.stage.delivery.frame.keyFrame && s.stage.delivery.frame.bytes == []
  }

  ghost predicate Unscheduled(s: Sys) {
    && s.closing == Open && s.stage == Waiting && s.tasks == 0 && s.owed == 0
    && s.inbox.frames == [] && !s.inbox.scheduled && !s.inbox.closed && s.inbox.dropped == 0 && s.decoder.slots == []
  }

  lemma RunOfNothing(steps: seq<Step>)
    requires steps == []
    ensures var s := Run(steps);
            && Unscheduled(s) && s.decoder.phase == Idle && s.decoder.codec.None? && s.decoder.pending.None?
            && s.decoder.created == 0 && s.decoder.queued == [] && s.decoder.reported == 0 && s.decoder.discarded == 0
  {
  }

  lemma ConfiguredFresh(s: Sys, step: Step)
    requires Unscheduled(s) && s.decoder.phase == Idle && s.decoder.codec.None? && s.decoder.pending.None?
    requires s.decoder.created == 0 && s.decoder.queued == [] && s.decoder.reported == 0 && s.decoder.discarded == 0
    requires step == Configure(1, 1, true, READS)
    ensures Unscheduled(Next(s, step)) && Fresh(Next(s, step).decoder)
  {
  }

  lemma OfferedKey(s: Sys, offer: Step)
    requires Unscheduled(s) && Fresh(s.decoder) && offer == Offer([], 0, true)
    ensures var t := Next(Next(s, offer), PostDelivery); KeyOffered(t) && t.decoder.slots == []
  {
  }

  lemma SetUp(steps: seq<Step>)
    requires steps == [Configure(1, 1, true, READS)] + [Offer([], 0, true)] + [PostDelivery]
    ensures KeyOffered(Run(steps)) && Run(steps).decoder.slots == []
  {
    hide Run, Next, KeyOffered, Fresh, Unscheduled;
    var configure, offer := Configure(1, 1, true, READS), Offer([], 0, true);
    var none: seq<Step> := steps[..0];
    RunOfNothing(none);
    assert none + [configure] == [configure];
    RunOn(none, configure);
    RunOn([configure], offer);
    RunOn([configure] + [offer], PostDelivery);
    ConfiguredFresh(Run(none), configure);
    OfferedKey(Run([configure]), offer);
  }

  lemma TakeKey(s: Sys)
    requires KeyOffered(s)
    ensures var t := Next(Next(s, CheckDelivery), TakeDelivery); KeyTaken(t) && t.decoder == s.decoder
  {
  }

  lemma SlotIsKept(s: Sys, step: Step)
    requires KeyOffered(s) && s.decoder.slots == [] && step == SlotAvailable(0, 0, Buffer(0, false), true, READS)
    ensures KeyOffered(Next(s, step)) && Next(s, step).decoder.slots == [0]
  {
  }

  lemma KeyIsQueued(s: Sys, step: Step)
    requires KeyTaken(s) && s.decoder.slots == [0] && step == Deliver(true, Buffer(0, false), true, 1)
    ensures |Next(s, step).decoder.queued| == 1 && Next(s, step).IsClosed()
  {
  }

  /** The flag goes up after the delivery's own check, and the frame is queued
      all the same. */
  lemma FrameQueuedAfterFlag()
    ensures exists steps: seq<Step>, k: nat ::
              && k < |steps| && !Run(steps[..k]).IsClosed() && Run(steps[..k]).decoder.queued == []
              && steps[k].Deliver? && steps[k].raise == 1
              && Run(steps).IsClosed() && |Run(steps).decoder.queued| == 1
  {
    hide Run, Next, KeyOffered, KeyTaken;
    var start := [Configure(1, 1, true, READS)] + [Offer([], 0, true)] + [PostDelivery];
    var slot, deliver := SlotAvailable(0, 0, Buffer(0, false), true, READS), Deliver(true, Buffer(0, false), true, 1);
    var taken := start + [slot] + [CheckDelivery] + [TakeDelivery];
    SetUp(start);
    RunOn(start, slot);
    SlotIsKept(Run(start), slot);
    RunOn(start + [slot], CheckDelivery);
    RunOn(start + [slot] + [CheckDelivery], TakeDelivery);
    TakeKey(Run(start + [slot]));
    RunOn(taken, deliver);
    KeyIsQueued(Run(taken), deliver);
    TakenIsOpen(Run(taken));
    var steps := taken + [deliver];
    assert steps[..|taken|] == taken && steps[|taken|] == deliver;
  }

  lemma TakenIsOpen(s: Sys)
    requires KeyTaken(s)
    ensures !s.IsClosed() && s.decoder.queued == []
  {
  }

  lemma KeyVanishes(s: Sys)
    requires KeyTaken(s) && s.decoder.slots == []
    ensures var waiting := Next(Next(s, Deliver(true, Unavailable, true, READS)), FinishDelivery);
            var d := Next(waiting, Configure(1, 1, true, READS)).decoder;
            waiting.decoder.pending.Some? && d.pending.None? && d.discarded == 1 && d.reported == 0 && d.queued == []
  {
    var delivered := Next(s, Deliver(true, Unavailable, true, READS));
    assert delivered.decoder == s.decoder.(pending := Some(s.stage.delivery.frame));
  }

  /** A key frame waits for an input slot, the codec is configured again, and
      the frame is gone: neither queued nor reported. */
  lemma PendingFrameVanishes()
    ensures exists steps: seq<Step> ::
              var d := Run(steps).decoder; d.discarded == 1 && d.reported == 0 && d.queued == [] && d.pending.None?
  {
    hide Run, Next, KeyOffered, KeyTaken;
    var start := [Configure(1, 1, true, READS)] + [Offer([], 0, true)] + [PostDelivery];
    var deliver, again := Deliver(true, Unavailable, true, READS), Configure(1, 1, true, READS);
    var taken := start + [CheckDelivery] + [TakeDelivery];
    SetUp(start);
    RunOn(start, CheckDelivery);
    RunOn(start + [CheckDelivery], TakeDelivery);
    TakeKey(Run(start));
    RunOn(taken, deliver);
    RunOn(taken + [deliver], FinishDelivery);
    RunOn(taken + [deliver] + [FinishDelivery], again);
    KeyVanishes(Run(taken));
    assert Run(taken + [deliver] + [FinishDelivery] + [again]).decoder.discarded == 1;
  }
}
