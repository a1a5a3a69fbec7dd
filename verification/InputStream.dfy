/** What the adapter hands out, told by the stream of wire samples alone: no map of
    contacts and no clock, only what was heard before. */
module InputStream {
  import opened Wrappers
  import opened Bytes
  import opened WireFormat
  import opened InputAdapter

  type Positive = x: u16 | x > 0 witness 1

  /** A wire sample with its time by the host's clock and the settings of its moment,
      or a point where contacts, and perhaps the clock, are forgotten. */
  datatype Heard =
    | Forget(clock: bool)
    | Sample(s: InputSample, at: int, receivedAt: int, capabilities: u32, maxPressure: Positive, epoch: u64)

  datatype Settings = Settings(capabilities: u32, maxPressure: Positive, epoch: u64)

  function SettingsAfter(calls: seq<Call>): Settings {
    if calls == [] then Settings(0, 1, 0)
    else
      var before, last := calls[..|calls| - 1], calls[|calls| - 1];
      match last
      case Configure(capabilities, maxPenPressure, epoch) =>
        Settings(capabilities, if maxPenPressure > 0 then maxPenPressure else 1, epoch)
      case SetCapabilities(capabilities) => SettingsAfter(before).(capabilities := capabilities)
      case SetOrientationEpoch(epoch) => SettingsAfter(before).(epoch := epoch)
      case _ => SettingsAfter(before)
  }

  /** The newest sample of a batch is now, the others their deltas before. */
  function TimeOf(batch: InputBatch, receivedAt: int, i: nat): int
    requires i < |batch.samples|
  {
    receivedAt - (batch.samples[|batch.samples| - 1].timestampDeltaUs - batch.samples[i].timestampDeltaUs) * 1000
  }

  function Items(batch: InputBatch, receivedAt: int, now: Settings, n: nat): seq<Heard>
    requires n <= |batch.samples|
  {
    if n == 0 then []
    else
      Items(batch, receivedAt, now, n - 1)
      + [Sample(batch.samples[n - 1], TimeOf(batch, receivedAt, n - 1), receivedAt,
                now.capabilities, now.maxPressure, now.epoch)]
  }

  function Stream(calls: seq<Call>): seq<Heard> {
    if calls == [] then []
    else
      var before, last := calls[..|calls| - 1], calls[|calls| - 1];
      Stream(before) +
      match last
      case Configure(_, _, _) => [Forget(true)]
      case Reset => [Forget(true)]
      case SetOrientationEpoch(_) => [Forget(false)]
      case SetCapabilities(_) => []
      case Adapt(batch, receivedAt) =>
        if 1 <= |batch.samples| <= 64 then Items(batch, receivedAt, SettingsAfter(before), |batch.samples|) else []
  }

  // One wire sample.

  predicate Flag(flags: nat, value: nat)
    requires value > 0
  {
    flags / value % 2 == 1
  }

  /** The pointer of this tool was last heard in contact. */
  function InContact(heard: seq<Heard>, tool: u8, pointer: u16): bool {
    if heard == [] then false
    else
      var last := heard[|heard| - 1];
      if last.Forget? then false
      else if last.s.tool == tool && last.s.pointerId == pointer then
        Flag(last.s.contactFlags, 2) && !Flag(last.s.contactFlags, 4)
      else InContact(heard[..|heard| - 1], tool, pointer)
  }

  /** The latest time heard since the clock was forgotten. */
  function Latest(heard: seq<Heard>): int {
    if heard == [] then 0
    else
      var last, before := heard[|heard| - 1], heard[..|heard| - 1];
      match last
      case Forget(clock) => if clock then 0 else Latest(before)
      case Sample(_, at, _, _, _, _) => if at > Latest(before) then at else Latest(before)
  }

  /** Only a touch that neither was, is, nor was cancelled from contact is not told. */
  predicate Told(s: InputSample, was: bool) {
    s.tool != 2 || was || Flag(s.contactFlags, 2) || Flag(s.contactFlags, 4)
  }

  function PhaseOf(s: InputSample, was: bool): Phase {
    if Flag(s.contactFlags, 4) then Cancel
    else
      match (was, Flag(s.contactFlags, 2))
      case (false, true) => Down
      case (true, true) => Move
      case (true, false) => Up
      case (false, false) => Hover
  }

  function Unit(value: nat, whole: nat): real
    requires whole > 0
  {
    if value >= whole then 1.0 else value as real / whole as real
  }

  /** The sample as the host gets it. */
  function HostOf(item: Heard, was: bool, timestamp: int): HostSample
    requires item.Sample?
  {
    var s, pen := item.s, item.s.tool != 2;
    HostSample(
      s, item.epoch, PhaseOf(s, was), timestamp,
      Axes(Unit(s.x, 65535), Unit(s.y, 65535), Unit(s.pressure, item.maxPressure),
           if pen then s.tiltX as real / 100.0 else 0.0, if pen then s.tiltY as real / 100.0 else 0.0,
           if pen && s.distance != 65535 then Unit(s.distance, 65535) else 0.0),
      Flag(item.capabilities, 1), pen && Flag(item.capabilities, 4), pen && Flag(s.contactFlags, 1), s.tool == 3,
      if pen then s.buttons % 8 else 0)
  }

  /** What is told for the whole stream, in order. */
  function Telling(heard: seq<Heard>): seq<Entry>
  {
    if heard == [] then []
    else
      var before, last := heard[..|heard| - 1], heard[|heard| - 1];
      Telling(before) +
      match last
      case Forget(clock) => [Forgot(clock)]
      case Sample(s, _, receivedAt, _, _, _) =>
        var was := InContact(before, s.tool, s.pointerId);
        if Told(s, was) then [Emitted(HostOf(last, was, Latest(heard)), receivedAt)] else []
  }

  // The adapter keeps exactly what was heard.

  ghost predicate Keeps(a: Adapter, heard: seq<Heard>) {
    && (forall tool: u8, pointer: u16 :: WasContact(a, tool * 0x1_0000 + pointer) <==> InContact(heard, tool, pointer))
    && a.lastTimestamp == Latest(heard)
  }

  ghost predicate HasSettings(a: Adapter, now: Settings) {
    a.capabilities == now.capabilities && a.maxPressure == now.maxPressure && a.orientationEpoch == now.epoch
  }

  lemma PhaseIs(s: InputSample, was: bool)
    ensures PhaseFor(s, was) == PhaseOf(s, was)
    ensures IsContact(s) <==> Flag(s.contactFlags, 2)
    ensures IsCancelled(s) <==> Flag(s.contactFlags, 4)
  {
  }

  lemma HostIs(s: InputSample, a: Adapter, now: Settings, was: bool, timestamp: int, item: Heard)
    requires HasSettings(a, now) && item.Sample? && item.s == s
    requires Settings(item.capabilities, item.maxPressure, item.epoch) == now
    ensures Host(s, a, PhaseFor(s, was), timestamp) == HostOf(item, was, timestamp)
  {
    PhaseIs(s, was);
    UnitIs(s.pressure, now.maxPressure);
  }

  lemma UnitIs(value: u16, maximum: Positive)
    ensures NormalizedPressure(value, maximum) == Unit(value, maximum)
    ensures NormalizedAxis(value) == Unit(value, 65535)
  {
    var ratio := value as real / maximum as real;
    assert ratio * maximum as real == value as real;
    assert value as real >= maximum as real <==> ratio >= 1.0;
  }

  lemma InContactOn(heard: seq<Heard>, item: Heard, tool: u8, pointer: u16)
    ensures InContact(heard + [item], tool, pointer) ==
      if item.Forget? then false
      else if item.s.tool == tool && item.s.pointerId == pointer then
        Flag(item.s.contactFlags, 2) && !Flag(item.s.contactFlags, 4)
      else InContact(heard, tool, pointer)
    ensures Latest(heard + [item]) ==
      match item
      case Forget(clock) => if clock then 0 else Latest(heard)
      case Sample(_, at, _, _, _, _) => if at > Latest(heard) then at else Latest(heard)
  {
    assert (heard + [item])[..|heard|] == heard;
  }

  lemma TellingOn(heard: seq<Heard>, item: Heard)
    requires item.Sample?
    ensures var was := InContact(heard, item.s.tool, item.s.pointerId);
            Telling(heard + [item]) == Telling(heard)
              + if Told(item.s, was) then [Emitted(HostOf(item, was, Latest(heard + [item])), item.receivedAt)] else []
  {
    assert (heard + [item])[..|heard|] == heard;
  }

  lemma SampleIsHeard(a: Adapter, now: Settings, heard: seq<Heard>, start: int, item: Heard)
    requires Keeps(a, heard) && HasSettings(a, now) && item.Sample?
    requires item.at == start + item.s.timestampDeltaUs * 1000
    requires Settings(item.capabilities, item.maxPressure, item.epoch) == now
    ensures var (after, host) := Took(a, item.s, start);
            && Keeps(after, heard + [item]) && HasSettings(after, now)
            && Telling(heard + [item])
               == Telling(heard) + if host.Some? then [Emitted(host.value, item.receivedAt)] else []
  {
    hide InContact, Latest, Flag, Telling, Host, HostOf;
    var (after, host) := Took(a, item.s, start);
    var was := InContact(heard, item.s.tool, item.s.pointerId);
    PhaseIs(item.s, was);
    TellingOn(heard, item);
    HostIs(item.s, a, now, was, Latest(heard + [item]), item);
    InContactOn(heard, item, 0, 0);
    forall tool: u8, pointer: u16
      ensures WasContact(after, tool * 0x1_0000 + pointer) <==> InContact(heard + [item], tool, pointer)
    {
      InContactOn(heard, item, tool, pointer);
      assert WasContact(a, tool * 0x1_0000 + pointer) <==> InContact(heard, tool, pointer);
    }
  }

  lemma {:induction false} BatchIsHeard(
    a: Adapter, now: Settings, heard: seq<Heard>, batch: InputBatch, at: int, n: nat)
    requires Keeps(a, heard) && HasSettings(a, now) && Adaptable(batch) && n <= |batch.samples|
    ensures var (after, emitted) := TookAll(a, batch.samples[..n], BatchStart(batch, at));
            var longer := heard + Items(batch, at, now, n);
            && Keeps(after, longer) && HasSettings(after, now)
            && Telling(longer) == Telling(heard) + Entries(emitted, at)
  {
    hide Keeps, HasSettings, Took, Telling;
    if n == 0 {
      assert heard + Items(batch, at, now, n) == heard;
      assert Telling(heard) + Entries([], at) == Telling(heard);
    } else {
      BatchIsHeard(a, now, heard, batch, at, n - 1);
      var (before, emitted) := TookAll(a, batch.samples[..n - 1], BatchStart(batch, at));
      var items := Items(batch, at, now, n - 1);
      var item := Sample(batch.samples[n - 1], TimeOf(batch, at, n - 1), at,
                         now.capabilities, now.maxPressure, now.epoch);
      SampleIsHeard(before, now, heard + items, BatchStart(batch, at), item);
      assert heard + Items(batch, at, now, n) == (heard + items) + [item];
      assert batch.samples[..n][..n - 1] == batch.samples[..n - 1];
      var last := Took(before, item.s, BatchStart(batch, at)).1;
      assert emitted + [] == emitted;
      assert last.Some? ==> Entries(emitted + [last.value], at) == Entries(emitted, at) + [Emitted(last.value, at)];
      assert Telling(heard) + Entries(emitted, at) + [] == Telling(heard) + Entries(emitted, at);
    }
  }

  lemma ForgetIsHeard(a: Adapter, heard: seq<Heard>, clock: bool)
    requires Keeps(a, heard) || clock
    ensures Keeps(a.(contacts := map[], lastTimestamp := if clock then 0 else a.lastTimestamp), heard + [Forget(clock)])
    ensures Telling(heard + [Forget(clock)]) == Telling(heard) + [Forgot(clock)]
  {
    var longer := heard + [Forget(clock)];
    assert longer[..|heard|] == heard;
  }

  lemma CallIsHeard(y: Sys, now: Settings, heard: seq<Heard>, batch: InputBatch, at: int)
    requires Keeps(y.a, heard) && HasSettings(y.a, now) && y.history == Telling(heard) && Adaptable(batch)
    ensures var z, longer := Next(y, Adapt(batch, at)), heard + Items(batch, at, now, |batch.samples|);
            Keeps(z.a, longer) && HasSettings(z.a, now) && z.history == Telling(longer)
  {
    hide Keeps, HasSettings, TookAll, Telling;
    BatchIsHeard(y.a, now, heard, batch, at, |batch.samples|);
    assert batch.samples[..|batch.samples|] == batch.samples;
  }

  /** Over any calls: exactly what the stream of wire samples tells has been handed
      out, with these phases, times, axes and settings, and nothing else. */
  lemma {:induction false} RunIsTelling(calls: seq<Call>)
    ensures Run(calls).history == Telling(Stream(calls))
    ensures Keeps(Run(calls).a, Stream(calls)) && HasSettings(Run(calls).a, SettingsAfter(calls))
  {
    if calls != [] {
      hide Keeps, Telling, TookAll, Items;
      var before, last := calls[..|calls| - 1], calls[|calls| - 1];
      RunIsTelling(before);
      var heard := Stream(before);
      match last
      case Adapt(batch, at) =>
        assert heard + [] == heard;
        if Adaptable(batch) {
          CallIsHeard(Run(before), SettingsAfter(before), heard, batch, at);
        }
      case SetCapabilities(capabilities) =>
        assert heard + [] == heard;
        CapabilitiesAreNotHeard(Run(before).a, capabilities, heard);
      case SetOrientationEpoch(epoch) => ForgetIsHeard(Run(before).a.(orientationEpoch := epoch), heard, false);
      case Reset => ForgetIsHeard(Run(before).a, heard, true);
      case Configure(_, _, _) => ForgetIsHeard(Run(calls).a, heard, true);
    }
  }

  lemma CapabilitiesAreNotHeard(a: Adapter, capabilities: u32, heard: seq<Heard>)
    requires Keeps(a, heard)
    ensures Keeps(a.(capabilities := capabilities), heard)
  {
    forall tool: u8, pointer: u16
      ensures WasContact(a.(capabilities := capabilities), tool * 0x1_0000 + pointer)
         <==> InContact(heard, tool, pointer)
    {
      assert WasContact(a, tool * 0x1_0000 + pointer) <==> InContact(heard, tool, pointer);
    }
  }
}
