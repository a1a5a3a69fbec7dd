/** Finding an IDR slice in an H.264 byte stream (Annex B of ITU-T H.264). */
module AnnexB {
  import opened Bytes

  /** A start code prefix, 00 00 01. */
  predicate StartCode(b: seq<u8>, i: nat) {
    i + 2 < |b| && b[i] == 0 && b[i + 1] == 0 && b[i + 2] == 1
  }

  /** The NAL unit after the start code is a slice of an IDR picture: forbidden
      zero bit clear, nal_unit_type 5. */
  predicate IdrAfter(b: seq<u8>, i: nat) {
    i + 3 < |b| && b[i + 3] < 0x80 && b[i + 3] % 0x20 == 5
  }

  /** The start codes the scan sees: it resumes after the header byte, so it
      misses one that begins at the header of a start code it saw. */
  predicate Seen(b: seq<u8>, i: nat) {
    StartCode(b, i) && !(i >= 3 && Seen(b, i - 3))
  }

  /** The header after the first start code at or after `from`, or the length
      of the text when none has one. */
  method NextHeader(b: seq<u8>, from: nat) returns (header: nat)
    requires from <= |b|
    ensures from + 3 <= header < |b| ==>
            StartCode(b, header - 3) && forall i | from <= i < header - 3 :: !StartCode(b, i)
    ensures header == |b| || from + 3 <= header < |b|
    ensures header == |b| ==> forall i | from <= i && i + 3 < |b| :: !StartCode(b, i)
  {
    header := |b|;
    var index := from;
    while index + 2 < |b|
      invariant from <= index
      invariant forall i | from <= i < index :: !StartCode(b, i)
    {
      if b[index] == 0 && b[index + 1] == 0 {
        if b[index + 2] == 1 {
          return index + 3;
        }
        if index + 3 < |b| && b[index + 2] == 0 && b[index + 3] == 1 {
          assert forall i | from <= i < index + 1 :: !StartCode(b, i);
          return index + 4;
        }
      }
      index := index + 1;
    }
  }

  /** True exactly when a start code the scan sees is followed by an IDR slice. */
  method AnnexBAccessUnitContainsIdr(b: seq<u8>) returns (idr: bool)
    ensures idr <==> exists i: nat :: Seen(b, i) && IdrAfter(b, i)
  {
    var searchFrom := 0;
    while searchFrom < |b|
      invariant searchFrom <= |b|
      invariant forall i: nat | Seen(b, i) && i < searchFrom :: i + 4 <= searchFrom && !IdrAfter(b, i)
      decreases |b| - searchFrom
    {
      var header := NextHeader(b, searchFrom);
      if header == |b| {
        return false;
      }
      assert Seen(b, header - 3);
      var nal := b[header];
      if nal < 0x80 && nal % 0x20 == 5 {
        assert IdrAfter(b, header - 3);
        return true;
      }
      forall i: nat | Seen(b, i) && i < header + 1 ensures i + 4 <= header + 1 && !IdrAfter(b, i) {
        assert i != header;
      }
      searchFrom := header + 1;
    }
    return false;
  }

  /** When no start code follows directly on another, the scan sees them all,
      and finds an IDR slice exactly when there is one. */
  lemma {:induction false} SeesAll(b: seq<u8>)
    requires forall i: nat | StartCode(b, i) :: !StartCode(b, i + 3)
    ensures (exists i: nat :: Seen(b, i) && IdrAfter(b, i)) <==> exists i: nat :: StartCode(b, i) && IdrAfter(b, i)
  {
    forall i: nat | StartCode(b, i) ensures Seen(b, i) {
      assert i >= 3 ==> !StartCode(b, i - 3);
    }
  }

  /** Otherwise it can miss one: here the second start code and its IDR slice. */
  lemma {:induction false} MissedSlice()
    ensures var b: seq<u8> := [0, 0, 1, 0, 0, 1, 0x65];
            && StartCode(b, 3) && IdrAfter(b, 3)
            && !(exists i: nat :: Seen(b, i) && IdrAfter(b, i))
  {
    var b: seq<u8> := [0, 0, 1, 0, 0, 1, 0x65];
    assert Seen(b, 0);
    forall i: nat | Seen(b, i) ensures !IdrAfter(b, i) {
      assert i == 0 || i == 3;
    }
  }

  /** How many start codes stand directly one after the other before i. */
  function CodesBefore(b: seq<u8>, i: nat): nat {
    if i >= 3 && StartCode(b, i - 3) then 1 + CodesBefore(b, i - 3) else 0
  }

  /** Of start codes that follow directly on one another the scan sees the
      first, the third, and so on. */
  lemma {:induction false} SeesEveryOther(b: seq<u8>, i: nat)
    ensures Seen(b, i) <==> StartCode(b, i) && CodesBefore(b, i) % 2 == 0
  {
    if i >= 3 {
      SeesEveryOther(b, i - 3);
    }
  }

  /** The answer is exact if and only if there is no IDR slice, or one stands
      after an even number of start codes. */
  lemma {:induction false} ExactUnlessAllAreHidden(b: seq<u8>)
    ensures ((exists i: nat :: Seen(b, i) && IdrAfter(b, i)) <==> exists i: nat :: StartCode(b, i) && IdrAfter(b, i))
       <==> || !(exists i: nat :: StartCode(b, i) && IdrAfter(b, i))
            || exists i: nat :: StartCode(b, i) && IdrAfter(b, i) && CodesBefore(b, i) % 2 == 0
  {
    forall i: nat ensures Seen(b, i) <==> StartCode(b, i) && CodesBefore(b, i) % 2 == 0 {
      SeesEveryOther(b, i);
    }
  }
}
