/** When the resolution policy moves, told by the observations alone. */
module LadderPolicy {
  import opened EncodeSize
  import opened ResolutionLadder

  /** More than 50 ms from capture, in the queue or in all, or more than 16.666 ms in
      the encoder, or a transport that blocks. */
  predicate OverBudget(o: Observation) {
    || o.transportBlocked || o.queueAge > 50_000_000 || o.captureToEncodeDuration > 50_000_000
    || o.encodeDuration > 16_666_000
  }

  function Native(events: seq<Event>): Size {
    if events == [] then Size(0, 0)
    else
      var last := events[|events| - 1];
      if last.SetNativeSize? then last.native else Native(events[..|events| - 1])
  }

  /** The first rung: the one asked for, when there is one. */
  function Top(initial: nat): nat {
    if initial == 1920 || initial == 2560 then initial else 3200
  }

  /** Observations over the budget in a row, since the last change of rung or geometry. */
  function Row(initial: nat, events: seq<Event>): nat
    decreases |events|, 0
  {
    if events == [] then 0
    else
      var before, last := events[..|events| - 1], events[|events| - 1];
      match last
      case SetNativeSize(native) => if native != Native(before) then 0 else Row(initial, before)
      case Observe(o) => if !OverBudget(o) || Moves(initial, before, o) != NoAction then 0 else Row(initial, before) + 1
  }

  /** The time from which nothing was over the budget: of the last observation that
      was, or of the last change of rung, or of the first one with this geometry.
      Zero stands for none. */
  function CalmSince(initial: nat, events: seq<Event>): int
    decreases |events|, 0
  {
    if events == [] then 0
    else
      var before, last := events[..|events| - 1], events[|events| - 1];
      match last
      case SetNativeSize(native) => if native != Native(before) then 0 else CalmSince(initial, before)
      case Observe(o) =>
        if OverBudget(o) || Moves(initial, before, o) != NoAction || CalmSince(initial, before) == 0 then o.timestamp
        else CalmSince(initial, before)
  }

  function Rung(initial: nat, events: seq<Event>): nat
    decreases |events|, 0
  {
    if events == [] then Top(initial)
    else
      var before, last := events[..|events| - 1], events[|events| - 1];
      var rung := Rung(initial, before);
      if !last.Observe? then rung
      else
        match Moves(initial, before, last.o)
        case NoAction => rung
        case Downgrade => if rung == 3200 then 2560 else 1920
        case Upgrade => if rung == 1920 then 2560 else 3200
  }

  /** Down with the third in a row, above the lowest rung; up after ten calm seconds,
      below the first rung. */
  function Moves(initial: nat, events: seq<Event>, o: Observation): Action
    decreases |events|, 1
  {
    var rung, since := Rung(initial, events), CalmSince(initial, events);
    if OverBudget(o) then if Row(initial, events) >= 2 && rung > 1920 then Downgrade else NoAction
    else if rung < Top(initial) && since != 0 && o.timestamp - since >= 10_000_000_000 then Upgrade
    else NoAction
  }

  /** How long it has been calm. */
  function Calm(now: int, since: int): int {
    if since != 0 && now >= since then now - since else 0
  }

  /** The controller keeps exactly that. */
  lemma {:induction false} ControllerKeeps(initial: nat, events: seq<Event>)
    ensures var c := Run(initial, events);
            && c.native == Native(events) && c.initial == Top(initial) && c.current == Rung(initial, events)
            && c.stableSince == CalmSince(initial, events)
            && c.breaches == Row(initial, events) % U32 && (c.current > 1920 ==> Row(initial, events) <= 2)
            && 1920 <= c.current <= 3200
  {
    hide SelectEncodeResolution, Moves;
    if events != [] {
      var before, last := events[..|events| - 1], events[|events| - 1];
      ControllerKeeps(initial, before);
      if last.Observe? {
        ObservedKeeps(initial, before, last.o);
      }
    }
  }

  lemma ObservedKeeps(initial: nat, events: seq<Event>, o: Observation)
    requires var c := Run(initial, events);
             && c.initial == Top(initial) && c.current == Rung(initial, events)
             && c.stableSince == CalmSince(initial, events)
             && c.breaches == Row(initial, events) % U32 && (c.current > 1920 ==> Row(initial, events) <= 2)
    ensures var (t, decision) := Observed(Run(initial, events), o);
            var action := Moves(initial, events, o);
            && decision.action == action
            && t.current == (if action == Downgrade then if Rung(initial, events) == 3200 then 2560 else 1920
                             else if action == Upgrade then if Rung(initial, events) == 1920 then 2560 else 3200
                             else Rung(initial, events))
            && t.stableSince == (if OverBudget(o) || action != NoAction || CalmSince(initial, events) == 0
                                 then o.timestamp else CalmSince(initial, events))
            && t.breaches == (if !OverBudget(o) || action != NoAction then 0 else Row(initial, events) + 1) % U32
  {
    hide SelectEncodeResolution, Run, Rung, CalmSince, Row;
  }

  /** After any events, an observation moves the rung exactly when the observations so
      far say so, and exactly one rung; the decision names the move. */
  lemma {:induction false} MovesExactlyWhen(initial: nat, events: seq<Event>, o: Observation)
    ensures var (t, decision) := Observed(Run(initial, events), o);
            && t == Run(initial, events + [Observe(o)])
            && decision.action == Moves(initial, events, o)
            && t.current == decision.maxLongestEdge == Rung(initial, events + [Observe(o)])
            && decision.breached == OverBudget(o) && decision.requestStreamReset == (decision.action != NoAction)
            && decision.consecutiveBreaches == Row(initial, events + [Observe(o)]) % U32
            && decision.encodeSize == SelectEncodeResolution(Native(events), t.current)
            && decision.stableMilliseconds == Calm(o.timestamp, CalmSince(initial, events + [Observe(o)])) / 1_000_000
  {
    assert (events + [Observe(o)])[..|events|] == events;
    ControllerKeeps(initial, events);
    ControllerKeeps(initial, events + [Observe(o)]);
  }
}
