/** Cutting a batch of touch samples into injections: one instant each, each
    pointer at most once, at most ten contacts. */
module TouchGrouping {

  datatype TouchSample = TouchSample(pointerId: nat, timestamp: int)

  const MAX_CONTACTS := 10

  /** The samples from `begin` up to `end` may be injected together. */
  ghost predicate Injectable(samples: seq<TouchSample>, begin: nat, end: nat) {
    && begin < end <= |samples| && end - begin <= 10
    && (forall i | begin <= i < end :: samples[i].timestamp == samples[begin].timestamp)
    && (forall i, j | begin <= i < j < end :: samples[i].pointerId != samples[j].pointerId)
  }

  /** `cuts` splits the samples from the first cut on, in order and without
      gaps, into injections. */
  ghost predicate Splits(samples: seq<TouchSample>, cuts: seq<nat>) {
    && cuts != [] && cuts[|cuts| - 1] == |samples|
    && forall k | 0 <= k < |cuts| - 1 :: Injectable(samples, cuts[k], cuts[k + 1])
  }

  ghost predicate Partition(samples: seq<TouchSample>, cuts: seq<nat>) {
    Splits(samples, cuts) && cuts[0] == 0
  }

  /** The longest injection that starts at `begin`. */
  ghost predicate Longest(samples: seq<TouchSample>, begin: nat, end: nat) {
    Injectable(samples, begin, end) && !Injectable(samples, begin, end + 1)
  }

  method NextTouchInjectionGroupEnd(samples: seq<TouchSample>, begin: nat) returns (end: nat)
    ensures begin >= |samples| ==> end == |samples|
    ensures begin < |samples| ==> Longest(samples, begin, end)
  {
    if begin >= |samples| {
      return |samples|;
    }
    var timestamp := samples[begin].timestamp;
    end := begin;
    while end < |samples| && end - begin < MAX_CONTACTS && samples[end].timestamp == timestamp
      invariant begin <= end <= |samples|
      invariant end > begin ==> Injectable(samples, begin, end)
    {
      var prior := begin;
      while prior < end && samples[prior].pointerId != samples[end].pointerId
        invariant begin <= prior <= end
        invariant forall k | begin <= k < prior :: samples[k].pointerId != samples[end].pointerId
      {
        prior := prior + 1;
      }
      if prior != end {
        break;
      }
      end := end + 1;
    }
  }

  /** The cuts of the loop are never behind those of another partition. */
  lemma {:induction false} StaysAhead(samples: seq<TouchSample>, cuts: seq<nat>, other: seq<nat>, k: nat)
    requires Partition(samples, cuts) && Partition(samples, other) && k < |cuts| && k < |other|
    requires forall i | 0 <= i < |cuts| - 1 :: Longest(samples, cuts[i], cuts[i + 1])
    ensures other[k] <= cuts[k]
  {
    if k > 0 {
      StaysAhead(samples, cuts, other, k - 1);
      assert Longest(samples, cuts[k - 1], cuts[k - 1 + 1]) && Injectable(samples, other[k - 1], other[k - 1 + 1]);
      if other[k] > cuts[k] {
      }
    }
  }

  /** No other way to split the samples into injections needs fewer of them. */
  lemma FewestInjections(samples: seq<TouchSample>, cuts: seq<nat>, other: seq<nat>)
    requires Partition(samples, cuts) && Partition(samples, other)
    requires forall k | 0 <= k < |cuts| - 1 :: Longest(samples, cuts[k], cuts[k + 1])
    ensures |cuts| <= |other|
  {
    var last := |other| - 1;
    if |other| < |cuts| {
      assert Injectable(samples, cuts[last], cuts[last + 1]);
      StaysAhead(samples, cuts, other, last);
    }
  }

  /** The loop over a batch: a partition of the samples into the longest
      injections, and no partition has fewer. */
  method GroupBatch(samples: seq<TouchSample>) returns (cuts: seq<nat>)
    ensures Partition(samples, cuts)
    ensures forall k | 0 <= k < |cuts| - 1 :: Longest(samples, cuts[k], cuts[k + 1])
    ensures forall other | Partition(samples, other) :: |cuts| <= |other|
  {
    var begin := 0;
    cuts := [0];
    while begin < |samples|
      invariant cuts != [] && cuts[0] == 0 && cuts[|cuts| - 1] == begin <= |samples|
      invariant forall k | 0 <= k < |cuts| - 1 :: Longest(samples, cuts[k], cuts[k + 1])
    {
      var end := NextTouchInjectionGroupEnd(samples, begin);
      cuts := cuts + [end];
      begin := end;
    }
    forall other | Partition(samples, other) ensures |cuts| <= |other| {
      FewestInjections(samples, cuts, other);
    }
  }

  ghost function Injections(samples: seq<TouchSample>, cuts: seq<nat>): seq<TouchSample>
    requires Splits(samples, cuts)
  {
    if |cuts| == 1 then []
    else
      SplitsOn(samples, cuts);
      samples[cuts[0]..cuts[1]] + Injections(samples, cuts[1..])
  }

  lemma SplitsOn(samples: seq<TouchSample>, cuts: seq<nat>)
    requires Splits(samples, cuts) && |cuts| > 1
    ensures Splits(samples, cuts[1..]) && Injectable(samples, cuts[0], cuts[1])
  {
    assert Injectable(samples, cuts[0], cuts[0 + 1]);
    forall k | 0 <= k < |cuts[1..]| - 1 ensures Injectable(samples, cuts[1..][k], cuts[1..][k + 1]) {
      assert Injectable(samples, cuts[k + 1], cuts[k + 1 + 1]);
    }
  }

  /** One after the other, the injections are the samples from the first cut
      on: nothing is lost, repeated or reordered. */
  lemma {:induction false} NothingLost(samples: seq<TouchSample>, cuts: seq<nat>)
    requires Splits(samples, cuts)
    ensures cuts[0] <= |samples| && Injections(samples, cuts) == samples[cuts[0]..]
  {
    if |cuts| > 1 {
      SplitsOn(samples, cuts);
      NothingLost(samples, cuts[1..]);
      assert samples[cuts[0]..] == samples[cuts[0]..cuts[1]] + samples[cuts[1]..];
    }
  }
}
