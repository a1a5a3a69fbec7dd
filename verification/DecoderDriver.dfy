/** The decoder object and its inbox, driven through a schedule. */
module DecoderDriver {
  import opened AvcDecoding
  import opened DecoderRuns

  /** What the threads have under way besides the objects' own state. */
  datatype Threads = Threads(owed: nat, tasks: nat, stage: Stage, closing: Closing)

  /** The objects and the threads are where the system is. */
  ghost predicate At(decoder: AvcDecoder, threads: Threads, s: Sys)
    reads decoder, decoder.inbox, decoder.recovery
  {
    && decoder.Value() == s.decoder && decoder.inbox.Value() == s.inbox && decoder.offered == s.offered
    && threads == Threads(s.owed, s.tasks, s.stage, s.closing)
  }

  /** Any schedule on the objects leaves them where the run of the schedule ends. */
  method Drive(steps: seq<Step>) returns (decoder: AvcDecoder, threads: Threads)
    ensures fresh(decoder) && At(decoder, threads, Run(steps))
  {
    hide Next, Run;
    decoder := new AvcDecoder();
    threads := Threads(0, 0, Waiting, Open);
    RunOfEmpty();
    for i := 0 to |steps|
      invariant fresh(decoder) && fresh(decoder.inbox) && fresh(decoder.recovery)
      invariant At(decoder, threads, Run(steps[..i]))
    {
      RunOn(steps[..i], steps[i]);
      assert steps[..i] + [steps[i]] == steps[..i + 1];
      threads := Advance(decoder, threads, steps[i], Run(steps[..i]));
    }
    assert steps[..|steps|] == steps;
  }

  lemma RunOfEmpty()
    ensures Run([]) == START
  {
  }

  method Advance(decoder: AvcDecoder, threads: Threads, step: Step, ghost s: Sys) returns (after: Threads)
    requires At(decoder, threads, s)
    modifies decoder, decoder.inbox, decoder.recovery
    ensures At(decoder, after, Next(s, step))
  {
    hide OnHandler;
    after := threads;
    match step
    case Offer(bytes, timestampUs, keyFrame) =>
      var post := decoder.Queue(bytes, timestampUs, keyFrame);
      after := threads.(owed := threads.owed + if post then 1 else 0);
    case PostDelivery =>
      if threads.owed > 0 {
        after := threads.(owed := threads.owed - 1, tasks := threads.tasks + if threads.closing == Open then 1 else 0);
      }
    case RaiseClosed =>
      if threads.closing == Open {
        after := threads.(closing := Flagged);
      }
    case CloseInbox =>
      if threads.closing == Flagged {
        decoder.inbox.Close();
        after := threads.(closing := InboxClosed);
      }
    case _ => after := Handle(decoder, threads, step, s);
  }

  /** A step of the handler thread. */
  method Handle(decoder: AvcDecoder, threads: Threads, step: Step, ghost s: Sys) returns (after: Threads)
    requires At(decoder, threads, s)
    modifies decoder, decoder.inbox, decoder.recovery
    ensures At(decoder, after, OnHandler(s, step))
  {
    hide Delivered, Commanded;
    after := threads;
    match threads.stage
    case Entered =>
      if step.TakeDelivery? {
        var delivery := decoder.inbox.Take();
        after := threads.(stage := if delivery.Some? then Took(delivery.value) else Finishing);
      }
    case Took(delivery) =>
      if step.Deliver? {
        var r := ReadsOf(threads.closing != Open, step.raise);
        decoder.Deliver(r, delivery, step.created, step.slot, step.recreated);
        after := Raised(threads, step.raise).(stage := Finishing);
      }
    case Finishing =>
      if step.FinishDelivery? {
        var again := decoder.inbox.FinishDelivery();
        after := threads.(stage := Waiting, owed := threads.owed + if again then 1 else 0);
      }
    case Waiting =>
      if step.CheckDelivery? {
        if threads.tasks > 0 {
          var closed := threads.closing != Open;
          var proceed, again := decoder.CheckDelivery(Reads(closed, closed, closed, closed));
          after := if proceed then threads.(tasks := threads.tasks - 1, stage := Entered)
                   else if again then threads
                   else threads.(tasks := threads.tasks - 1);
        }
      } else if step.CloseOnThread? {
        if threads.closing == InboxClosed {
          decoder.CloseOnThread();
          after := threads.(closing := Done);
        }
      } else {
        after := Command(decoder, threads, step, s);
      }
  }

  /** A command that got this far may have met the flag on its way. */
  function Raised(threads: Threads, raise: nat): Threads {
    threads.(closing := if threads.closing == Open && raise < READS then Flagged else threads.closing)
  }

  method Command(decoder: AvcDecoder, threads: Threads, step: Step, ghost s: Sys) returns (after: Threads)
    requires At(decoder, threads, s)
    modifies decoder, decoder.recovery
    ensures At(decoder, after, Commanded(s, step))
  {
    hide Configured, InputAvailable, OutputAvailable, CodecFailed;
    after := threads;
    var closed := threads.closing != Open;
    match step
    case Configure(width, height, created, raise) =>
      decoder.Configure(ReadsOf(closed, raise), width, height, created);
      after := Raised(threads, raise);
    case SlotAvailable(source, index, slot, recreated, raise) =>
      decoder.OnInputBufferAvailable(ReadsOf(closed, raise), source, index, slot, recreated);
      after := Raised(threads, raise);
    case OutputReady(source, released, recreated, raise) =>
      decoder.OnOutputBufferAvailable(ReadsOf(closed, raise), source, released, recreated);
      after := Raised(threads, raise);
    case CodecError(source, recreated, raise) =>
      decoder.OnError(ReadsOf(closed, raise), source, recreated);
      after := Raised(threads, raise);
    case _ =>
  }
}
