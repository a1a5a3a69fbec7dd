/** From wire samples to host samples: phases are derived from the contact
    flags, and the client's clock is anchored to the time of receipt.  Times
    are in nanoseconds. */
module InputAdapter {
  import opened Wrappers
  import opened Bytes
  import opened WireFormat

  datatype Phase = Hover | Down | Move | Up | Cancel

  const TOUCH := 2

  /** The axes of a sample; exact where the program rounds to single precision. */
  datatype Axes = Axes(x: real, y: real, pressure: real, tiltX: real, tiltY: real, distance: real)

  /** A sample for the host. */
  datatype HostSample = HostSample(
    source: InputSample, orientationEpoch: u64, phase: Phase, timestamp: int, axes: Axes,
    pressureAvailable: bool, tiltAvailable: bool, inRange: bool, eraser: bool, buttons: nat)

  datatype InputFrame = InputFrame(pens: seq<HostSample>, touches: seq<HostSample>)

  datatype Adapter = Adapter(
    capabilities: u32, maxPressure: u16, orientationEpoch: u64, contacts: map<nat, bool>, lastTimestamp: int)

  const FRESH := Adapter(0, 1, 0, map[], 0)

  const ERASER := 3
  const DISTANCE_UNAVAILABLE := 0xFFFF

  predicate HasPressure(capabilities: u32) {
    capabilities % 2 == 1
  }

  predicate HasTilt(capabilities: u32) {
    capabilities / 4 % 2 == 1
  }

  function NormalizedAxis(value: u16): (r: real)
    ensures 0.0 <= r <= 1.0
  {
    value as real / 65535.0
  }

  function AtLeastOne(maximum: u16): u16 {
    if maximum == 0 then 1 else maximum
  }

  function NormalizedPressure(value: u16, maximum: u16): (r: real)
    ensures 0.0 <= r <= 1.0
  {
    var ratio := value as real / AtLeastOne(maximum) as real;
    if ratio > 1.0 then 1.0 else ratio
  }

  /** A touch has no tilt and no distance. */
  function AxesOf(s: InputSample, maxPressure: u16): Axes {
    var x, y, pressure := NormalizedAxis(s.x), NormalizedAxis(s.y), NormalizedPressure(s.pressure, maxPressure);
    if s.tool == TOUCH then Axes(x, y, pressure, 0.0, 0.0, 0.0)
    else
      Axes(x, y, pressure, s.tiltX as real / 100.0, s.tiltY as real / 100.0,
           if s.distance == DISTANCE_UNAVAILABLE then 0.0 else NormalizedAxis(s.distance))
  }

  /** Tilts of a sample the decoder accepts are within ninety degrees, pressure
      is full exactly from the maximum on, and the rest is within the unit. */
  lemma AxesInRange(s: InputSample, maxPressure: u16)
    requires ValidSample(s)
    ensures var a := AxesOf(s, maxPressure);
            && -90.0 <= a.tiltX <= 90.0 && -90.0 <= a.tiltY <= 90.0 && 0.0 <= a.distance <= 1.0
            && (a.pressure == 1.0 <==> s.pressure >= AtLeastOne(maxPressure))
  {
    var maximum := AtLeastOne(maxPressure) as real;
    var ratio := s.pressure as real / maximum;
    assert ratio * maximum == s.pressure as real;
    assert s.pressure as real >= maximum <==> ratio >= 1.0;
  }

  /** A sample for the host, with what its flags and the capabilities say. */
  function Host(s: InputSample, a: Adapter, phase: Phase, timestamp: int): HostSample {
    var pen := s.tool != TOUCH;
    HostSample(s, a.orientationEpoch, phase, timestamp, AxesOf(s, a.maxPressure),
               HasPressure(a.capabilities), pen && HasTilt(a.capabilities),
               pen && s.contactFlags % 2 == 1, s.tool == ERASER, if pen then s.buttons % 8 else 0)
  }

  predicate IsContact(s: InputSample) {
    s.contactFlags / 2 % 2 == 1
  }

  predicate IsCancelled(s: InputSample) {
    s.contactFlags / 4 % 2 == 1
  }

  function ContactKey(s: InputSample): nat {
    s.tool * 0x1_0000 + s.pointerId
  }

  function PhaseFor(s: InputSample, wasContact: bool): Phase {
    if IsCancelled(s) then Cancel
    else if IsContact(s) then if wasContact then Move else Down
    else if wasContact then Up
    else Hover
  }

  predicate WasContact(a: Adapter, key: nat) {
    key in a.contacts && a.contacts[key]
  }

  /** One sample of a batch that began at `start`. */
  function Took(a: Adapter, s: InputSample, start: int): (Adapter, Option<HostSample>) {
    var key := ContactKey(s);
    var was := WasContact(a, key);
    var at := start + s.timestampDeltaUs * 1000;
    var timestamp := if at < a.lastTimestamp then a.lastTimestamp else at;
    var contacts := if IsCancelled(s) || !IsContact(s) then a.contacts - {key} else a.contacts[key := true];
    (a.(contacts := contacts, lastTimestamp := timestamp),
     if s.tool == TOUCH && !IsContact(s) && !IsCancelled(s) && !was then None
     else Some(Host(s, a, PhaseFor(s, was), timestamp)))
  }

  function TookAll(a: Adapter, samples: seq<InputSample>, start: int): (Adapter, seq<HostSample>) {
    if samples == [] then (a, [])
    else
      var (before, emitted) := TookAll(a, samples[..|samples| - 1], start);
      var (after, last) := Took(before, samples[|samples| - 1], start);
      (after, emitted + if last.Some? then [last.value] else [])
  }

  function Pens(samples: seq<HostSample>): seq<HostSample> {
    if samples == [] then []
    else
      var last := samples[|samples| - 1];
      Pens(samples[..|samples| - 1]) + if last.source.tool == TOUCH then [] else [last]
  }

  function Touches(samples: seq<HostSample>): seq<HostSample> {
    if samples == [] then []
    else
      var last := samples[|samples| - 1];
      Touches(samples[..|samples| - 1]) + if last.source.tool == TOUCH then [last] else []
  }

  predicate Adaptable(batch: InputBatch) {
    0 < |batch.samples| <= MAX_SAMPLES
  }

  /** When the batch began by the host's clock: its newest sample is now. */
  function BatchStart(batch: InputBatch, receivedAt: int): int
    requires Adaptable(batch)
  {
    receivedAt - batch.samples[|batch.samples| - 1].timestampDeltaUs * 1000
  }

  lemma SplitFrame(samples: seq<HostSample>, last: HostSample)
    ensures Pens(samples + [last]) == Pens(samples) + if last.source.tool == TOUCH then [] else [last]
    ensures Touches(samples + [last]) == Touches(samples) + if last.source.tool == TOUCH then [last] else []
  {
    assert (samples + [last])[..|samples|] == samples;
  }

  lemma NoSamples()
    ensures Pens([]) == [] && Touches([]) == []
  {
  }

  class InputBatchAdapter {
    var capabilities: u32
    var maxPressure: u16
    var orientationEpoch: u64
    var contacts: map<nat, bool>
    var lastTimestamp: int

    ghost function Value(): Adapter
      reads this
    {
      Adapter(capabilities, maxPressure, orientationEpoch, contacts, lastTimestamp)
    }

    constructor ()
      ensures Value() == FRESH
    {
      capabilities, maxPressure, orientationEpoch, contacts, lastTimestamp := 0, 1, 0, map[], 0;
    }

    method Configure(capabilities: u32, maxPenPressure: u16, epoch: u64)
      modifies this
      ensures Value() == Adapter(capabilities, AtLeastOne(maxPenPressure), epoch, map[], 0)
    {
      this.capabilities := capabilities;
      maxPressure := AtLeastOne(maxPenPressure);
      orientationEpoch := epoch;
      Reset();
    }

    method SetCapabilities(capabilities: u32)
      modifies this
      ensures Value() == old(Value()).(capabilities := capabilities)
    {
      this.capabilities := capabilities;
    }

    method SetOrientationEpoch(epoch: u64)
      modifies this
      ensures Value() == old(Value()).(orientationEpoch := epoch, contacts := map[])
    {
      orientationEpoch := epoch;
      contacts := map[];
    }

    method Reset()
      modifies this
      ensures Value() == old(Value()).(contacts := map[], lastTimestamp := 0)
    {
      contacts := map[];
      lastTimestamp := 0;
    }

    /** The body of the loop over a batch. */
    method Take(s: InputSample, start: int) returns (host: Option<HostSample>)
      modifies this
      ensures (Value(), host) == Took(old(Value()), s, start)
    {
      var key := ContactKey(s);
      var wasContact := key in contacts && contacts[key];
      var phase := PhaseFor(s, wasContact);
      var timestamp := start + s.timestampDeltaUs * 1000;
      if timestamp < lastTimestamp {
        timestamp := lastTimestamp;
      }
      lastTimestamp := timestamp;
      if IsCancelled(s) || !IsContact(s) {
        contacts := contacts - {key};
      } else {
        contacts := contacts[key := true];
      }
      if s.tool == TOUCH && !IsContact(s) && !IsCancelled(s) && !wasContact {
        return None;
      }
      if s.tool == TOUCH {
        return Some(HostSample(s, orientationEpoch, phase, timestamp, AxesOf(s, maxPressure),
                               HasPressure(capabilities), false, false, false, 0));
      }
      return Some(HostSample(s, orientationEpoch, phase, timestamp, AxesOf(s, maxPressure),
                             HasPressure(capabilities), HasTilt(capabilities),
                             s.contactFlags % 2 == 1, s.tool == ERASER, s.buttons % 8));
    }

    method Adapt(batch: InputBatch, receivedAt: int) returns (ok: bool, output: InputFrame)
      modifies this
      ensures ok == Adaptable(batch)
      ensures !ok ==> Value() == old(Value()) && output == InputFrame([], [])
      ensures ok ==>
        var (after, emitted) := TookAll(old(Value()), batch.samples, BatchStart(batch, receivedAt));
        Value() == after && output == InputFrame(Pens(emitted), Touches(emitted))
    {
      hide Took, Pens, Touches;
      output := InputFrame([], []);
      NoSamples();
      if |batch.samples| == 0 || |batch.samples| > MAX_SAMPLES {
        return false, output;
      }
      var samples := batch.samples;
      var start := receivedAt - samples[|samples| - 1].timestampDeltaUs * 1000;
      ghost var emitted: seq<HostSample> := [];
      for i := 0 to |samples|
        invariant (Value(), emitted) == TookAll(old(Value()), samples[..i], start)
        invariant output == InputFrame(Pens(emitted), Touches(emitted))
      {
        assert samples[..i + 1][..i] == samples[..i];
        var host := Take(samples[i], start);
        if host.None? {
          assert emitted + [] == emitted;
          continue;
        }
        SplitFrame(emitted, host.value);
        emitted := emitted + [host.value];
        output := if host.value.source.tool == TOUCH then output.(touches := output.touches + [host.value])
                  else output.(pens := output.pens + [host.value]);
      }
      assert samples[..|samples|] == samples;
      return true, output;
    }
  }

  // Runs.

  datatype Call =
    | Configure(capabilities: u32, maxPenPressure: u16, epoch: u64)
    | SetCapabilities(capabilities: u32)
    | SetOrientationEpoch(epoch: u64)
    | Reset
    | Adapt(batch: InputBatch, receivedAt: int)

  /** What has come out so far: samples with the time their batch was received,
      and the points where contacts, and perhaps the clock, were forgotten. */
  datatype Entry = Emitted(h: HostSample, receivedAt: int) | Forgot(clock: bool)

  datatype Sys = Sys(a: Adapter, history: seq<Entry>)

  function Entries(samples: seq<HostSample>, receivedAt: int): seq<Entry> {
    seq(|samples|, i requires 0 <= i < |samples| => Emitted(samples[i], receivedAt))
  }

  function Next(y: Sys, call: Call): Sys {
    match call
    case Configure(capabilities, maxPenPressure, epoch) =>
      Sys(Adapter(capabilities, AtLeastOne(maxPenPressure), epoch, map[], 0), y.history + [Forgot(true)])
    case SetCapabilities(capabilities) => y.(a := y.a.(capabilities := capabilities))
    case SetOrientationEpoch(epoch) =>
      Sys(y.a.(orientationEpoch := epoch, contacts := map[]), y.history + [Forgot(false)])
    case Reset => Sys(y.a.(contacts := map[], lastTimestamp := 0), y.history + [Forgot(true)])
    case Adapt(batch, receivedAt) =>
      if !Adaptable(batch) then y
      else
        var (after, emitted) := TookAll(y.a, batch.samples, BatchStart(batch, receivedAt));
        Sys(after, y.history + Entries(emitted, receivedAt))
  }

  function Run(calls: seq<Call>): Sys {
    if calls == [] then Sys(FRESH, []) else Next(Run(calls[..|calls| - 1]), calls[|calls| - 1])
  }

  lemma RunOn(calls: seq<Call>, call: Call)
    ensures Run(calls + [call]) == Next(Run(calls), call) && Run([]).a == FRESH
  {
    assert (calls + [call])[..|calls|] == calls;
  }

  /** What `Adapt` hands out. */
  function FrameOf(a: Adapter, batch: InputBatch, receivedAt: int): InputFrame {
    if !Adaptable(batch) then InputFrame([], [])
    else
      var (_, emitted) := TookAll(a, batch.samples, BatchStart(batch, receivedAt));
      InputFrame(Pens(emitted), Touches(emitted))
  }

  /** The frames handed out, one for each call of `Adapt`. */
  function Frames(calls: seq<Call>): seq<InputFrame> {
    if calls == [] then []
    else
      var before, last := calls[..|calls| - 1], calls[|calls| - 1];
      Frames(before) + if last.Adapt? then [FrameOf(Run(before).a, last.batch, last.receivedAt)] else []
  }

  lemma FramesOn(calls: seq<Call>, call: Call)
    ensures Frames(calls + [call])
         == Frames(calls) + if call.Adapt? then [FrameOf(Run(calls).a, call.batch, call.receivedAt)] else []
    ensures Frames([]) == []
  {
    assert (calls + [call])[..|calls|] == calls;
  }

  /** Any calls on the adapter object leave it where the run of the calls ends,
      and hand out the frames of the run. */
  method Drive(calls: seq<Call>) returns (adapter: InputBatchAdapter, frames: seq<InputFrame>)
    ensures fresh(adapter) && adapter.Value() == Run(calls).a && frames == Frames(calls)
  {
    hide Run, TookAll, Frames;
    adapter := new InputBatchAdapter();
    frames := [];
    RunOn([], Reset);
    FramesOn([], Reset);
    for i := 0 to |calls|
      invariant fresh(adapter) && adapter.Value() == Run(calls[..i]).a && frames == Frames(calls[..i])
    {
      RunOn(calls[..i], calls[i]);
      FramesOn(calls[..i], calls[i]);
      assert calls[..i] + [calls[i]] == calls[..i + 1];
      assert frames + [] == frames;
      match calls[i] {
        case Configure(capabilities, maxPenPressure, epoch) => adapter.Configure(capabilities, maxPenPressure, epoch);
        case SetCapabilities(capabilities) => adapter.SetCapabilities(capabilities);
        case SetOrientationEpoch(epoch) => adapter.SetOrientationEpoch(epoch);
        case Reset => adapter.Reset();
        case Adapt(batch, receivedAt) =>
          var _, frame := adapter.Adapt(batch, receivedAt);
          frames := frames + [frame];
      }
    }
    assert calls[..|calls|] == calls;
  }

  // The phase language.

  /** What a consumer of the samples knows: the pointer touches after a Down or
      a Move, until an Up, a Cancel, or until everything is forgotten. */
  predicate Touching(history: seq<Entry>, key: nat) {
    if history == [] then false
    else
      var last := history[|history| - 1];
      if last.Forgot? then false
      else if ContactKey(last.h.source) == key then last.h.phase == Down || last.h.phase == Move
      else Touching(history[..|history| - 1], key)
  }

  predicate Allowed(h: HostSample, touching: bool) {
    match h.phase
    case Down => !touching
    case Move => touching
    case Up => touching
    case Hover => !touching && h.source.tool != TOUCH
    case Cancel => true
  }

  /** Every sample has a phase its pointer may have at that point. */
  predicate InLanguage(history: seq<Entry>) {
    forall i | 0 <= i < |history| && history[i].Emitted? ::
      Allowed(history[i].h, Touching(history[..i], ContactKey(history[i].h.source)))
  }

  /** The pointers a contact key stands for are told apart. */
  lemma KeysAreDistinct(s: InputSample, t: InputSample)
    ensures ContactKey(s) == ContactKey(t) <==> s.tool == t.tool && s.pointerId == t.pointerId
  {
  }

  /** The adapter's contacts are what a consumer of its output knows. */
  ghost predicate Agrees(a: Adapter, history: seq<Entry>) {
    forall key: nat :: WasContact(a, key) <==> Touching(history, key)
  }

  lemma Extend(history: seq<Entry>, last: Entry)
    requires InLanguage(history)
    requires last.Emitted? ==> Allowed(last.h, Touching(history, ContactKey(last.h.source)))
    ensures InLanguage(history + [last])
  {
    hide Touching, Allowed;
    var longer := history + [last];
    forall i | 0 <= i < |longer| && longer[i].Emitted?
      ensures Allowed(longer[i].h, Touching(longer[..i], ContactKey(longer[i].h.source)))
    {
      assert longer[..i] == history[..i];
      assert history[..|history|] == history;
    }
  }

  lemma TouchingNext(history: seq<Entry>, last: Entry, key: nat)
    ensures Touching(history + [last], key) ==
      if last.Forgot? then false
      else if ContactKey(last.h.source) == key then last.h.phase == Down || last.h.phase == Move
      else Touching(history, key)
  {
    assert (history + [last])[..|history|] == history;
  }

  lemma SampleKeeps(a: Adapter, history: seq<Entry>, s: InputSample, start: int, receivedAt: int)
    requires Agrees(a, history) && InLanguage(history)
    ensures var (b, emitted) := Took(a, s, start);
            var longer := history + if emitted.Some? then [Emitted(emitted.value, receivedAt)] else [];
            Agrees(b, longer) && InLanguage(longer)
  {
    hide Touching, InLanguage, ContactKey;
    var (b, emitted) := Took(a, s, start);
    var key := ContactKey(s);
    if emitted.None? {
      assert history + [] == history;
    } else {
      var last := Emitted(emitted.value, receivedAt);
      assert WasContact(a, key) <==> Touching(history, key);
      Extend(history, last);
      forall k: nat ensures WasContact(b, k) <==> Touching(history + [last], k) {
        TouchingNext(history, last, k);
        assert WasContact(a, k) <==> Touching(history, k);
      }
    }
  }

  lemma {:induction false} BatchKeeps(
    a: Adapter, history: seq<Entry>, samples: seq<InputSample>, start: int, receivedAt: int)
    requires Agrees(a, history) && InLanguage(history)
    ensures var (b, emitted) := TookAll(a, samples, start);
            var longer := history + Entries(emitted, receivedAt);
            Agrees(b, longer) && InLanguage(longer)
  {
    hide Agrees, InLanguage, Took;
    if samples == [] {
      assert history + Entries([], receivedAt) == history;
    } else {
      var (before, emitted) := TookAll(a, samples[..|samples| - 1], start);
      BatchKeeps(a, history, samples[..|samples| - 1], start, receivedAt);
      var last := samples[|samples| - 1];
      SampleKeeps(before, history + Entries(emitted, receivedAt), last, start, receivedAt);
      var (_, more) := Took(before, last, start);
      var whole := emitted + if more.Some? then [more.value] else [];
      assert history + Entries(whole, receivedAt)
          == history + Entries(emitted, receivedAt) + if more.Some? then [Emitted(more.value, receivedAt)] else [];
    }
  }

  lemma CapabilitiesApart(a: Adapter, capabilities: u32, history: seq<Entry>)
    requires Agrees(a, history)
    ensures Agrees(a.(capabilities := capabilities), history)
  {
    hide Touching;
    forall key: nat ensures WasContact(a.(capabilities := capabilities), key) <==> Touching(history, key) {
      assert WasContact(a, key) <==> Touching(history, key);
    }
  }

  lemma ForgetKeeps(a: Adapter, history: seq<Entry>, clock: bool)
    requires InLanguage(history) && a.contacts == map[]
    ensures Agrees(a, history + [Forgot(clock)]) && InLanguage(history + [Forgot(clock)])
  {
    Extend(history, Forgot(clock));
  }

  lemma {:induction false} RunInLanguage(calls: seq<Call>)
    ensures Agrees(Run(calls).a, Run(calls).history) && InLanguage(Run(calls).history)
  {
    if calls != [] {
      hide Agrees, InLanguage, TookAll;
      var y, call := Run(calls[..|calls| - 1]), calls[|calls| - 1];
      RunInLanguage(calls[..|calls| - 1]);
      match call
      case Adapt(batch, receivedAt) =>
        if Adaptable(batch) {
          BatchKeeps(y.a, y.history, batch.samples, BatchStart(batch, receivedAt), receivedAt);
        }
      case SetCapabilities(capabilities) => CapabilitiesApart(y.a, capabilities, y.history);
      case SetOrientationEpoch(_) => ForgetKeeps(Next(y, call).a, y.history, false);
      case _ => ForgetKeeps(Next(y, call).a, y.history, true);
    }
  }

  /** Whatever arrives, for each tool and pointer the phases that come out form
      Down Move* Up sequences, with hovers only in between and never for a
      touch, and a cancel may end a contact at any point. */
  lemma {:induction false} PhaseLanguage(calls: seq<Call>)
    ensures InLanguage(Run(calls).history)
  {
    RunInLanguage(calls);
  }

  // Time.

  /** The clock was not forgotten from entry i on, before entry j. */
  ghost predicate SameClock(history: seq<Entry>, i: nat, j: nat) {
    i <= j < |history| && forall k | i <= k <= j :: history[k] != Forgot(true)
  }

  ghost predicate Ordered(history: seq<Entry>) {
    forall i, j | 0 <= i < j < |history| && history[i].Emitted? && history[j].Emitted? && SameClock(history, i, j) ::
      history[i].h.timestamp <= history[j].h.timestamp
  }

  /** No sample since the clock was last forgotten is after `last`. */
  ghost predicate UpTo(history: seq<Entry>, last: int) {
    forall i | 0 <= i < |history| && history[i].Emitted? && SameClock(history, i, |history| - 1) ::
      history[i].h.timestamp <= last
  }

  lemma OrderedNext(history: seq<Entry>, last: int, entry: Entry, now: int)
    requires Ordered(history) && UpTo(history, last)
    requires entry != Forgot(true) ==> last <= now && (entry.Emitted? ==> entry.h.timestamp == now)
    ensures Ordered(history + [entry]) && UpTo(history + [entry], now)
  {
    var longer := history + [entry];
    forall i | 0 <= i < |longer| && longer[i].Emitted? && SameClock(longer, i, |longer| - 1)
      ensures longer[i].h.timestamp <= now
    {
      if i < |history| {
        assert longer[|history|] != Forgot(true);
        assert forall k | i <= k < |history| :: longer[k] == history[k];
        assert SameClock(history, i, |history| - 1);
      }
    }
    forall i, j | 0 <= i < j < |longer| && longer[i].Emitted? && longer[j].Emitted? && SameClock(longer, i, j)
      ensures longer[i].h.timestamp <= longer[j].h.timestamp
    {
      if j < |history| {
        assert forall k | i <= k <= j :: longer[k] == history[k];
        assert SameClock(history, i, j);
      } else {
        assert forall k | i <= k < |history| :: longer[k] == history[k];
        assert SameClock(history, i, |history| - 1);
      }
    }
  }

  lemma {:induction false} BatchOrdered(
    a: Adapter, history: seq<Entry>, samples: seq<InputSample>, start: int, receivedAt: int)
    requires Ordered(history) && UpTo(history, a.lastTimestamp)
    ensures var (b, emitted) := TookAll(a, samples, start);
            var longer := history + Entries(emitted, receivedAt);
            Ordered(longer) && UpTo(longer, b.lastTimestamp)
  {
    hide Ordered, UpTo;
    if samples == [] {
      assert history + Entries([], receivedAt) == history;
    } else {
      var (before, emitted) := TookAll(a, samples[..|samples| - 1], start);
      BatchOrdered(a, history, samples[..|samples| - 1], start, receivedAt);
      var (after, more) := Took(before, samples[|samples| - 1], start);
      var longer := history + Entries(emitted, receivedAt);
      if more.Some? {
        var entry := Emitted(more.value, receivedAt);
        OrderedNext(longer, before.lastTimestamp, entry, after.lastTimestamp);
        assert history + Entries(emitted + [more.value], receivedAt) == longer + [entry];
      } else {
        LaterStillUpTo(longer, before.lastTimestamp, after.lastTimestamp);
        assert emitted + [] == emitted;
      }
    }
  }

  lemma LaterStillUpTo(history: seq<Entry>, last: int, now: int)
    requires UpTo(history, last) && last <= now
    ensures UpTo(history, now)
  {
  }

  /** Until the clock is forgotten, time stamps never decrease, neither within a
      batch nor from one batch to the next. */
  lemma {:induction false} TimeNeverDecreases(calls: seq<Call>)
    ensures Ordered(Run(calls).history) && UpTo(Run(calls).history, Run(calls).a.lastTimestamp)
  {
    if calls != [] {
      hide Ordered, UpTo, TookAll;
      var y, call := Run(calls[..|calls| - 1]), calls[|calls| - 1];
      TimeNeverDecreases(calls[..|calls| - 1]);
      match call
      case Adapt(batch, receivedAt) =>
        if Adaptable(batch) {
          BatchOrdered(y.a, y.history, batch.samples, BatchStart(batch, receivedAt), receivedAt);
        }
      case SetCapabilities(_) =>
      case SetOrientationEpoch(_) => OrderedNext(y.history, y.a.lastTimestamp, Forgot(false), y.a.lastTimestamp);
      case _ => OrderedNext(y.history, y.a.lastTimestamp, Forgot(true), 0);
    } else {
      NothingYet();
    }
  }

  lemma NothingYet()
    ensures Ordered([]) && UpTo([], 0)
  {
  }

  // The two lists of a frame, each on its own.

  /** What a consumer of one list sees: frame by frame its samples, and the
      points where contacts, and perhaps the clock, are forgotten. */
  function Delivered(calls: seq<Call>, touch: bool): seq<Entry> {
    if calls == [] then []
    else
      var before, last := calls[..|calls| - 1], calls[|calls| - 1];
      Delivered(before, touch) +
        match last
        case Configure(_, _, _) => [Forgot(true)]
        case Reset => [Forgot(true)]
        case SetOrientationEpoch(_) => [Forgot(false)]
        case SetCapabilities(_) => []
        case Adapt(batch, receivedAt) =>
          var frame := FrameOf(Run(before).a, batch, receivedAt);
          Entries(if touch then frame.touches else frame.pens, receivedAt)
  }

  predicate Kept(e: Entry, touch: bool) {
    e.Forgot? || (e.h.source.tool == TOUCH) == touch
  }

  function Filtered(history: seq<Entry>, touch: bool): seq<Entry> {
    if history == [] then []
    else
      var last := history[|history| - 1];
      Filtered(history[..|history| - 1], touch) + if Kept(last, touch) then [last] else []
  }

  lemma FilteredOn(history: seq<Entry>, e: Entry, touch: bool)
    ensures Filtered(history + [e], touch) == Filtered(history, touch) + if Kept(e, touch) then [e] else []
  {
    assert (history + [e])[..|history|] == history;
  }

  lemma {:induction false} FilteredBatch(history: seq<Entry>, samples: seq<HostSample>, receivedAt: int, touch: bool)
    ensures Filtered(history + Entries(samples, receivedAt), touch)
         == Filtered(history, touch) + Entries(if touch then Touches(samples) else Pens(samples), receivedAt)
  {
    hide Filtered;
    if samples == [] {
      assert history + Entries([], receivedAt) == history;
      assert Filtered(history, touch) + Entries([], receivedAt) == Filtered(history, touch);
    } else {
      var before, last := samples[..|samples| - 1], samples[|samples| - 1];
      FilteredBatch(history, before, receivedAt, touch);
      var e := Emitted(last, receivedAt);
      FilteredOn(history + Entries(before, receivedAt), e, touch);
      assert history + Entries(samples, receivedAt) == history + Entries(before, receivedAt) + [e];
      var list := if touch then Touches(before) else Pens(before);
      assert Entries(list + [last], receivedAt) == Entries(list, receivedAt) + [e];
      assert list + [] == list;
    }
  }

  lemma {:induction false} DeliveredIsFiltered(calls: seq<Call>, touch: bool)
    ensures Delivered(calls, touch) == Filtered(Run(calls).history, touch)
  {
    if calls != [] {
      hide TookAll, Filtered, Pens, Touches;
      var before, last := calls[..|calls| - 1], calls[|calls| - 1];
      var history := Run(before).history;
      DeliveredIsFiltered(before, touch);
      match last
      case Adapt(batch, receivedAt) =>
        NoSamples();
        if Adaptable(batch) {
          var (_, emitted) := TookAll(Run(before).a, batch.samples, BatchStart(batch, receivedAt));
          FilteredBatch(history, emitted, receivedAt, touch);
        }
      case SetCapabilities(_) =>
      case SetOrientationEpoch(_) => FilteredOn(history, Forgot(false), touch);
      case _ => FilteredOn(history, Forgot(true), touch);
    }
  }

  /** Leaving out the other list tells nothing new about a pointer of this one. */
  lemma {:induction false} FilteredTouching(history: seq<Entry>, touch: bool, key: nat)
    requires (key / 0x1_0000 == TOUCH) == touch
    ensures Touching(Filtered(history, touch), key) == Touching(history, key)
  {
    if history != [] {
      var before, last := history[..|history| - 1], history[|history| - 1];
      FilteredTouching(before, touch, key);
      TouchingNext(Filtered(before, touch), last, key);
      if last.Emitted? {
        assert ContactKey(last.h.source) / 0x1_0000 == last.h.source.tool;
      }
      assert Filtered(before, touch) + [] == Filtered(before, touch);
    }
  }

  lemma LastInLanguage(history: seq<Entry>, e: Entry)
    requires InLanguage(history + [e])
    ensures InLanguage(history) && (e.Emitted? ==> Allowed(e.h, Touching(history, ContactKey(e.h.source))))
  {
    hide Touching, Allowed;
    var longer := history + [e];
    assert longer[..|history|] == history && longer[|history|] == e;
    forall i | 0 <= i < |history| && history[i].Emitted?
      ensures Allowed(history[i].h, Touching(history[..i], ContactKey(history[i].h.source)))
    {
      assert longer[i] == history[i] && longer[..i] == history[..i];
    }
  }

  lemma {:induction false} FilteredInLanguage(history: seq<Entry>, touch: bool)
    requires InLanguage(history)
    ensures InLanguage(Filtered(history, touch))
  {
    if history != [] {
      hide InLanguage, Touching, Allowed;
      var before, last := history[..|history| - 1], history[|history| - 1];
      assert history == before + [last];
      LastInLanguage(before, last);
      FilteredInLanguage(before, touch);
      assert Filtered(before, touch) + [] == Filtered(before, touch);
      if Kept(last, touch) {
        if last.Emitted? {
          assert ContactKey(last.h.source) / 0x1_0000 == last.h.source.tool;
          FilteredTouching(before, touch, ContactKey(last.h.source));
        }
        Extend(Filtered(before, touch), last);
      }
    } else {
    }
  }

  /** Nothing is after `last` once e was added, unless e forgets the clock. */
  lemma UpToOn(history: seq<Entry>, e: Entry, last: int)
    ensures UpTo(history + [e], last)
       <==> e == Forgot(true) || (UpTo(history, last) && (e.Emitted? ==> e.h.timestamp <= last))
  {
    var longer := history + [e];
    if e != Forgot(true) {
      forall i: nat | i < |history| ensures SameClock(longer, i, |history|) <==> SameClock(history, i, |history| - 1) {
        assert longer[|history|] == e;
        assert forall k | i <= k < |history| :: longer[k] == history[k];
      }
      assert SameClock(longer, |history|, |history|);
      assert longer[|history|] == e && forall i | 0 <= i < |history| :: longer[i] == history[i];
    } else {
      assert longer[|history|] == Forgot(true);
    }
  }

  lemma OrderedOn(history: seq<Entry>, e: Entry)
    requires Ordered(history + [e])
    ensures Ordered(history) && (e.Emitted? ==> UpTo(history, e.h.timestamp))
  {
    var longer := history + [e];
    assert forall i | 0 <= i < |history| :: longer[i] == history[i];
    forall i: nat, j: nat | i <= j < |history| ensures SameClock(longer, i, j) <==> SameClock(history, i, j) {
    }
    if e.Emitted? {
      assert longer[|history|] == e;
      forall i: nat | i < |history| && history[i].Emitted? && SameClock(history, i, |history| - 1)
        ensures history[i].h.timestamp <= e.h.timestamp
      {
        assert forall k | i <= k < |history| :: longer[k] == history[k];
        assert SameClock(longer, i, |history|);
        assert longer[i] == history[i];
      }
    }
  }

  lemma {:induction false} FilteredUpTo(history: seq<Entry>, touch: bool, last: int)
    requires UpTo(history, last)
    ensures UpTo(Filtered(history, touch), last)
  {
    if history != [] {
      hide UpTo;
      var before, e := history[..|history| - 1], history[|history| - 1];
      assert history == before + [e];
      UpToOn(before, e, last);
      UpToOn(Filtered(before, touch), e, last);
      assert Filtered(before, touch) + [] == Filtered(before, touch);
      if e != Forgot(true) {
        FilteredUpTo(before, touch, last);
      }
    }
  }

  lemma {:induction false} FilteredOrdered(history: seq<Entry>, touch: bool)
    requires Ordered(history)
    ensures Ordered(Filtered(history, touch))
  {
    if history != [] {
      hide Ordered, UpTo;
      var before, e := history[..|history| - 1], history[|history| - 1];
      assert history == before + [e];
      OrderedOn(before, e);
      FilteredOrdered(before, touch);
      assert Filtered(before, touch) + [] == Filtered(before, touch);
      if Kept(e, touch) {
        if e.Emitted? {
          FilteredUpTo(before, touch, e.h.timestamp);
        }
        AppendOrdered(Filtered(before, touch), e);
      }
    } else {
      NothingYet();
    }
  }

  lemma AppendOrdered(history: seq<Entry>, e: Entry)
    requires Ordered(history) && (e.Emitted? ==> UpTo(history, e.h.timestamp))
    ensures Ordered(history + [e])
  {
    var longer := history + [e];
    forall i, j | 0 <= i < j < |longer| && longer[i].Emitted? && longer[j].Emitted? && SameClock(longer, i, j)
      ensures longer[i].h.timestamp <= longer[j].h.timestamp
    {
      assert forall k | i <= k < |history| :: longer[k] == history[k];
      if j < |history| {
        assert SameClock(history, i, j);
      } else {
        assert SameClock(history, i, |history| - 1);
      }
    }
  }

  /** What the object hands out, pens and touches each on its own, obeys the
      phase language, and its time stamps never decrease until the clock is reset. */
  lemma {:induction false} EachListInOrder(calls: seq<Call>, touch: bool)
    ensures InLanguage(Delivered(calls, touch)) && Ordered(Delivered(calls, touch))
  {
    hide InLanguage, Ordered;
    RunInLanguage(calls);
    TimeNeverDecreases(calls);
    DeliveredIsFiltered(calls, touch);
    FilteredInLanguage(Run(calls).history, touch);
    FilteredOrdered(Run(calls).history, touch);
  }

  /** When the batches were received, in order. */
  function Received(calls: seq<Call>): seq<int> {
    if calls == [] then []
    else
      var last := calls[|calls| - 1];
      Received(calls[..|calls| - 1]) + if last.Adapt? then [last.receivedAt] else []
  }

  /** Batches as the decoder lets them through, received one after the other. */
  ghost predicate InTime(calls: seq<Call>) {
    var received := Received(calls);
    && (forall k | 0 <= k < |calls| && calls[k].Adapt? :: ValidInput(calls[k].batch))
    && (forall i | 0 <= i < |received| :: 0 <= received[i])
    && (forall i, j | 0 <= i < j < |received| :: received[i] <= received[j])
  }

  function LatestReceipt(calls: seq<Call>): int {
    var received := Received(calls);
    if received == [] then 0 else received[|received| - 1]
  }

  ghost predicate NotAhead(history: seq<Entry>) {
    forall i | 0 <= i < |history| && history[i].Emitted? :: history[i].h.timestamp <= history[i].receivedAt
  }

  lemma {:induction false} BatchNotAhead(a: Adapter, samples: seq<InputSample>, start: int, receivedAt: int)
    requires a.lastTimestamp <= receivedAt
    requires forall i | 0 <= i < |samples| :: start + samples[i].timestampDeltaUs * 1000 <= receivedAt
    ensures var (b, emitted) := TookAll(a, samples, start);
            b.lastTimestamp <= receivedAt && forall i | 0 <= i < |emitted| :: emitted[i].timestamp <= receivedAt
  {
    if samples != [] {
      BatchNotAhead(a, samples[..|samples| - 1], start, receivedAt);
    }
  }

  lemma {:induction false} InTimeBefore(calls: seq<Call>)
    requires calls != [] && InTime(calls)
    ensures InTime(calls[..|calls| - 1]) && LatestReceipt(calls[..|calls| - 1]) <= LatestReceipt(calls)
  {
    var before := calls[..|calls| - 1];
    var received := Received(before);
    assert forall k | 0 <= k < |before| :: before[k] == calls[k];
    assert forall i | 0 <= i < |received| :: received[i] == Received(calls)[i];
  }

  /** For batches the decoder accepted, received at times that do not decrease,
      no sample is dated after its batch was received. */
  lemma {:induction false} TimeNeverAhead(calls: seq<Call>)
    requires InTime(calls)
    ensures NotAhead(Run(calls).history) && Run(calls).a.lastTimestamp <= LatestReceipt(calls)
    ensures LatestReceipt(calls) >= 0
  {
    if calls != [] {
      hide TookAll;
      var y, call := Run(calls[..|calls| - 1]), calls[|calls| - 1];
      InTimeBefore(calls);
      TimeNeverAhead(calls[..|calls| - 1]);
      if call.Adapt? && Adaptable(call.batch) {
        assert LatestReceipt(calls) == call.receivedAt && ValidInput(call.batch);
        BatchNotAhead(y.a, call.batch.samples, BatchStart(call.batch, call.receivedAt), call.receivedAt);
      }
    }
  }
}
