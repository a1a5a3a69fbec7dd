/** The adaptive resolution policy: which rung of the ladder to encode at, and
    how often it can change.  Times are in nanoseconds. */
module ResolutionLadder {

  import opened EncodeSize

  datatype Observation = Observation(
    timestamp: int, queueAge: int, encodeDuration: int, captureToEncodeDuration: int, transportBlocked: bool)

  datatype Action = NoAction | Downgrade | Upgrade

  datatype Decision = Decision(
    action: Action, maxLongestEdge: nat, encodeSize: Size, breached: bool, requestStreamReset: bool,
    consecutiveBreaches: nat, stableMilliseconds: int)

  const RELEASE_BUDGET := 50_000_000
  const ENCODE_BUDGET := 16_666_000
  const STABLE_UPGRADE_WINDOW := 10_000_000_000
  const PERSISTENT_BREACH_SAMPLES := 3
  const U32: nat := 0x1_0000_0000

  predicate Breached(o: Observation) {
    o.transportBlocked || o.queueAge > RELEASE_BUDGET || o.captureToEncodeDuration > RELEASE_BUDGET
    || o.encodeDuration > ENCODE_BUDGET
  }

  /** `stableSince` is zero while no stable period has begun. */
  datatype Controller = Controller(native: Size, current: nat, initial: nat, breaches: nat, stableSince: int)

  function ClampRung(requested: nat): (rung: nat)
    ensures rung in {3200, 2560, 1920} && (requested in {3200, 2560, 1920} ==> rung == requested)
  {
    if requested in {3200, 2560, 1920} then requested else 3200
  }

  function Started(initial: nat): Controller {
    Controller(Size(0, 0), ClampRung(initial), ClampRung(initial), 0, 0)
  }

  function Resized(c: Controller, native: Size): Controller {
    if native == c.native then c else c.(native := native, breaches := 0, stableSince := 0)
  }

  function Decided(c: Controller, action: Action, o: Observation, breached: bool): Decision {
    var stable := if c.stableSince != 0 && o.timestamp >= c.stableSince then o.timestamp - c.stableSince else 0;
    Decision(action, c.current, SelectEncodeResolution(c.native, c.current), breached, action != NoAction, c.breaches,
             stable / 1_000_000)
  }

  function Observed(c: Controller, o: Observation): (Controller, Decision) {
    var since := if c.stableSince == 0 then o.timestamp else c.stableSince;
    if Breached(o) then
      var breaches := (c.breaches + 1) % U32;
      if breaches >= PERSISTENT_BREACH_SAMPLES && c.current > 1920 then
        var lower := c.(current := if c.current == 3200 then 2560 else 1920, breaches := 0, stableSince := o.timestamp);
        (lower, Decided(lower, Downgrade, o, true))
      else
        var same := c.(breaches := breaches, stableSince := o.timestamp);
        (same, Decided(same, NoAction, o, true))
    else if c.current < c.initial && o.timestamp >= since && o.timestamp - since >= STABLE_UPGRADE_WINDOW then
      var higher := c.(current := if c.current == 1920 then 2560 else 3200, breaches := 0, stableSince := o.timestamp);
      (higher, Decided(higher, Upgrade, o, false))
    else
      var same := c.(breaches := 0, stableSince := since);
      (same, Decided(same, NoAction, o, false))
  }

  class AdaptiveResolutionController {
    var nativeSize: Size
    var currentMaxLongestEdge: nat
    var initialMaxLongestEdge: nat
    var consecutiveBreaches: nat
    var stableSince: int

    ghost function Value(): Controller
      reads this
    {
      Controller(nativeSize, currentMaxLongestEdge, initialMaxLongestEdge, consecutiveBreaches, stableSince)
    }

    constructor ()
      ensures Value() == Started(3200)
    {
      nativeSize := Size(0, 0);
      currentMaxLongestEdge, initialMaxLongestEdge, consecutiveBreaches, stableSince := 3200, 3200, 0, 0;
    }

    method Start(initial: nat)
      modifies this
      ensures Value() == Started(initial)
    {
      initialMaxLongestEdge := ClampRung(initial);
      currentMaxLongestEdge := initialMaxLongestEdge;
      nativeSize := Size(0, 0);
      consecutiveBreaches := 0;
      stableSince := 0;
    }

    method SetNativeSize(native: Size)
      modifies this
      ensures Value() == Resized(old(Value()), native)
    {
      if native == nativeSize {
        return;
      }
      nativeSize := native;
      consecutiveBreaches := 0;
      stableSince := 0;
    }

    method MakeDecision(action: Action, o: Observation, breached: bool) returns (decision: Decision)
      ensures decision == Decided(Value(), action, o, breached)
    {
      var stable := 0;
      if stableSince != 0 && o.timestamp >= stableSince {
        stable := (o.timestamp - stableSince) / 1_000_000;
      }
      return Decision(action, currentMaxLongestEdge, SelectEncodeResolution(nativeSize, currentMaxLongestEdge),
                      breached, action != NoAction, consecutiveBreaches, stable);
    }

    method Observe(o: Observation) returns (decision: Decision)
      modifies this
      ensures (Value(), decision) == Observed(old(Value()), o)
    {
      var breached := Breached(o);
      if stableSince == 0 {
        stableSince := o.timestamp;
      }
      if breached {
        consecutiveBreaches := (consecutiveBreaches + 1) % U32;
        stableSince := o.timestamp;
        if consecutiveBreaches >= PERSISTENT_BREACH_SAMPLES && currentMaxLongestEdge > 1920 {
          currentMaxLongestEdge := if currentMaxLongestEdge == 3200 then 2560 else 1920;
          consecutiveBreaches := 0;
          stableSince := o.timestamp;
          decision := MakeDecision(Downgrade, o, true);
          return;
        }
        decision := MakeDecision(NoAction, o, true);
        return;
      }
      consecutiveBreaches := 0;
      if currentMaxLongestEdge < initialMaxLongestEdge && o.timestamp >= stableSince
         && o.timestamp - stableSince >= STABLE_UPGRADE_WINDOW {
        currentMaxLongestEdge := if currentMaxLongestEdge == 1920 then 2560 else 3200;
        stableSince := o.timestamp;
        decision := MakeDecision(Upgrade, o, false);
        return;
      }
      decision := MakeDecision(NoAction, o, false);
    }
  }

  // Runs.

  datatype Event = SetNativeSize(native: Size) | Observe(o: Observation)

  function Next(c: Controller, event: Event): Controller {
    match event
    case SetNativeSize(native) => Resized(c, native)
    case Observe(o) => Observed(c, o).0
  }

  function Run(initial: nat, events: seq<Event>): Controller {
    if events == [] then Started(initial) else Next(Run(initial, events[..|events| - 1]), events[|events| - 1])
  }

  lemma RunOn(initial: nat, events: seq<Event>, event: Event)
    ensures Run(initial, events + [event]) == Next(Run(initial, events), event) && Run(initial, []) == Started(initial)
  {
    assert (events + [event])[..|events|] == events;
  }

  /** Any events leave the controller object where their run ends. */
  method Drive(initial: nat, events: seq<Event>) returns (controller: AdaptiveResolutionController)
    ensures fresh(controller) && controller.Value() == Run(initial, events)
  {
    hide Run, Observed, Resized;
    controller := new AdaptiveResolutionController();
    controller.Start(initial);
    RunOn(initial, [], SetNativeSize(Size(0, 0)));
    for i := 0 to |events|
      invariant fresh(controller) && controller.Value() == Run(initial, events[..i])
    {
      RunOn(initial, events[..i], events[i]);
      assert events[..i] + [events[i]] == events[..i + 1];
      match events[i] {
        case SetNativeSize(native) => controller.SetNativeSize(native);
        case Observe(o) => var _ := controller.Observe(o);
      }
    }
    assert events[..|events|] == events;
  }

  /** What the last event of the run decided. */
  function LastAction(initial: nat, events: seq<Event>): Action
    requires events != []
  {
    var last := events[|events| - 1];
    if last.Observe? then Observed(Run(initial, events[..|events| - 1]), last.o).1.action else NoAction
  }

  function Observations(events: seq<Event>): seq<Observation> {
    if events == [] then []
    else
      var last := events[|events| - 1];
      Observations(events[..|events| - 1]) + if last.Observe? then [last.o] else []
  }

  function Count(initial: nat, events: seq<Event>, action: Action): nat {
    if events == [] then 0
    else Count(initial, events[..|events| - 1], action) + if LastAction(initial, events) == action then 1 else 0
  }

  /** How often the rung differed from one event to the next. */
  function RungChanges(initial: nat, events: seq<Event>): nat {
    if events == [] then 0
    else
      var before := events[..|events| - 1];
      RungChanges(initial, before) + if Run(initial, before).current != Run(initial, events).current then 1 else 0
  }

  ghost predicate TimeMovesOn(events: seq<Event>) {
    var o := Observations(events);
    forall i, j | 0 <= i < j < |o| :: o[i].timestamp <= o[j].timestamp
  }

  /** The time between the first and the last observation. */
  function Span(events: seq<Event>): int {
    var o := Observations(events);
    if o == [] then 0 else o[|o| - 1].timestamp - o[0].timestamp
  }

  /** The position on the ladder, from the bottom. */
  function Level(rung: nat): int {
    if rung == 1920 then 0 else if rung == 2560 then 1 else 2
  }

  predicate OnLadder(c: Controller) {
    c.current in {3200, 2560, 1920} && c.initial in {3200, 2560, 1920} && c.current <= c.initial
  }

  lemma {:induction false} RunStaysOnLadder(initial: nat, events: seq<Event>)
    ensures OnLadder(Run(initial, events)) && Run(initial, events).initial == ClampRung(initial)
  {
    if events != [] {
      RunStaysOnLadder(initial, events[..|events| - 1]);
    }
  }

  /** After any events: a native size is encoded with even edges of at least 2 and at
      most the rung, and exactly without one nothing is. */
  lemma EncodedFitsRung(initial: nat, events: seq<Event>)
    requires FitsU32(Run(initial, events).native)
    ensures var c := Run(initial, events);
            var size := SelectEncodeResolution(c.native, c.current);
            if Valid(c.native) then
              && size.width % 2 == 0 && 2 <= size.width <= c.current
              && size.height % 2 == 0 && 2 <= size.height <= c.current
            else size == Size(0, 0)
  {
    hide SelectEncodeResolution;
    RunStaysOnLadder(initial, events);
    SizeFitsEncoder(Run(initial, events).native, Run(initial, events).current);
  }

  // Downgrades.

  /** How many of the last observations breached the budget, without a pause. */
  function Streak(o: seq<Observation>): nat {
    if o == [] || !Breached(o[|o| - 1]) then 0 else 1 + Streak(o[..|o| - 1])
  }

  /** How many observations there were since the last downgrade. */
  function SinceDowngrade(initial: nat, events: seq<Event>): nat {
    if events == [] || LastAction(initial, events) == Downgrade then 0
    else SinceDowngrade(initial, events[..|events| - 1]) + if events[|events| - 1].Observe? then 1 else 0
  }

  /** How many observations there were since the geometry last changed. */
  function SinceResize(initial: nat, events: seq<Event>): nat {
    if events == [] then 0
    else
      var before, last := events[..|events| - 1], events[|events| - 1];
      match last
      case Observe(_) => SinceResize(initial, before) + 1
      case SetNativeSize(native) => if native != Run(initial, before).native then 0 else SinceResize(initial, before)
  }

  lemma BreachStep(c: Controller, o: Observation)
    ensures var (next, decision) := Observed(c, o);
            && next.breaches <= (if Breached(o) then c.breaches + 1 else 0)
            && (decision.action == Downgrade ==> next.breaches == 0)
  {
  }

  lemma ObservationsStep(events: seq<Event>, event: Event)
    ensures var o := Observations(events);
            Observations(events + [event]) == (if event.Observe? then o + [event.o] else o)
            && (event.Observe? ==> Streak(o + [event.o]) == if Breached(event.o) then Streak(o) + 1 else 0)
  {
    var o := Observations(events);
    assert (events + [event])[..|events|] == events && o + [] == o;
    assert event.Observe? ==> (o + [event.o])[..|o|] == o;
  }

  lemma {:induction false} BreachesAreCounted(initial: nat, events: seq<Event>)
    ensures var breaches := Run(initial, events).breaches;
            && breaches <= Streak(Observations(events)) && breaches <= SinceDowngrade(initial, events)
            && breaches <= SinceResize(initial, events)
  {
    hide Observed, Breached, Streak, Observations;
    if events != [] {
      var before, last := events[..|events| - 1], events[|events| - 1];
      BreachesAreCounted(initial, before);
      assert before + [last] == events;
      ObservationsStep(before, last);
      if last.Observe? {
        BreachStep(Run(initial, before), last.o);
      }
    }
  }

  lemma {:induction false} StreakBreached(o: seq<Observation>, n: nat)
    requires n < Streak(o)
    ensures n < |o| && Breached(o[|o| - 1 - n])
  {
    if n > 0 {
      StreakBreached(o[..|o| - 1], n - 1);
    }
  }

  /** A downgrade comes at the third of three observations in a row that breach
      the budget, and the two before it came after the previous downgrade and
      after the last change of the geometry. */
  lemma {:induction false} DowngradeAfterThree(initial: nat, events: seq<Event>)
    requires events != [] && LastAction(initial, events) == Downgrade
    ensures var o := Observations(events);
            |o| >= 3 && Breached(o[|o| - 1]) && Breached(o[|o| - 2]) && Breached(o[|o| - 3])
    ensures SinceDowngrade(initial, events[..|events| - 1]) >= 2 && SinceResize(initial, events[..|events| - 1]) >= 2
  {
    var before := events[..|events| - 1];
    BreachesAreCounted(initial, before);
    var o := Observations(before);
    StreakBreached(o, 0);
    StreakBreached(o, 1);
    assert Observations(events) == o + [events[|events| - 1].o];
  }

  // How often the rung changes.

  /** Every change of the rung is one upgrade or one downgrade, and the rung is
      where they lead from the initial one. */
  lemma {:induction false} ChangesAreActions(initial: nat, events: seq<Event>)
    ensures var up, down := Count(initial, events, Upgrade), Count(initial, events, Downgrade);
            && RungChanges(initial, events) == up + down
            && Level(Run(initial, events).current) == Level(ClampRung(initial)) + up - down
  {
    if events != [] {
      var before := events[..|events| - 1];
      ChangesAreActions(initial, before);
      RunStaysOnLadder(initial, before);
      RunStaysOnLadder(initial, events);
    }
  }

  lemma UpgradeTakesTime(c: Controller, o: Observation, upgrades: nat, first: int, last: int)
    requires last <= o.timestamp && first <= last && upgrades * STABLE_UPGRADE_WINDOW <= last - first
    requires c.stableSince != 0 ==>
      upgrades * STABLE_UPGRADE_WINDOW <= c.stableSince - first && c.stableSince <= last
    ensures var (next, decision) := Observed(c, o);
            var now := upgrades + if decision.action == Upgrade then 1 else 0;
            && now * STABLE_UPGRADE_WINDOW <= next.stableSince - first && next.stableSince <= o.timestamp
  {
  }

  /** Each upgrade needs a stable window of its own. */
  lemma {:induction false} UpgradesTakeTime(initial: nat, events: seq<Event>)
    requires TimeMovesOn(events)
    ensures var c, o, up := Run(initial, events), Observations(events), Count(initial, events, Upgrade);
            && (o == [] ==> up == 0 && c.stableSince == 0)
            && (o != [] ==> up * STABLE_UPGRADE_WINDOW <= Span(events))
            && (o != [] && c.stableSince != 0 ==>
                  up * STABLE_UPGRADE_WINDOW <= c.stableSince - o[0].timestamp && c.stableSince <= o[|o| - 1].timestamp)
  {
    if events != [] {
      var before, last := events[..|events| - 1], events[|events| - 1];
      var c, o, up := Run(initial, before), Observations(before), Count(initial, before, Upgrade);
      assert TimeMovesOn(before) by {
        assert forall i | 0 <= i < |o| :: o[i] == Observations(events)[i];
      }
      UpgradesTakeTime(initial, before);
      if last.Observe? {
        assert Observations(events) == o + [last.o];
        if o == [] {
          UpgradeTakesTime(c, last.o, 0, last.o.timestamp, last.o.timestamp);
        } else {
          assert o[|o| - 1] == Observations(events)[|o| - 1] && Observations(events)[|o|] == last.o;
          UpgradeTakesTime(c, last.o, up, o[0].timestamp, o[|o| - 1].timestamp);
        }
      } else {
        assert Observations(events) == o;
      }
    }
  }

  /** Over a run whose observations span T, with changes of the geometry
      anywhere in between, the rung changes at most 2 * floor(T / 10 s) + 2 times. */
  lemma {:induction false} BoundedOscillation(initial: nat, events: seq<Event>)
    requires TimeMovesOn(events)
    ensures RungChanges(initial, events) <= 2 * (Span(events) / STABLE_UPGRADE_WINDOW) + 2
  {
    hide Count, Run, RungChanges, Observations;
    var up, down := Count(initial, events, Upgrade), Count(initial, events, Downgrade);
    ChangesAreActions(initial, events);
    UpgradesTakeTime(initial, events);
    RunStaysOnLadder(initial, events);
    assert down <= up + 2;
    assert up * STABLE_UPGRADE_WINDOW <= Span(events);
  }
}
