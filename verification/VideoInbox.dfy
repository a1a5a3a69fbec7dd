/** The bounded burst buffer between the network thread and the decoder's
    handler thread.  Every method of the class is one synchronized region, hence
    one atomic step of the runs in module DecoderRuns. */
module VideoInbox {
  import opened Wrappers

  const CAPACITY: nat := 4

  /** One access unit.  `serial` is the unit's position in offer order; the
      program has no such field and nothing here branches on it, it only lets
      the properties name "the next frame". */
  datatype Frame = Frame(serial: nat, bytes: seq<bv8>, timestampUs: int, keyFrame: bool)

  datatype Delivery = Delivery(frame: Frame, dropped: nat)

  datatype Inbox = Inbox(frames: seq<Frame>, scheduled: bool, dropped: nat, closed: bool)

  /** The inbox after an offer, and whether the caller must post a delivery. */
  function Offered(x: Inbox, value: Frame): (Inbox, bool) {
    if x.closed then (x, false)
    else
      var kept := if |x.frames| == CAPACITY then x.(frames := [], dropped := x.dropped + CAPACITY) else x;
      (kept.(frames := kept.frames + [value], scheduled := true), !x.scheduled)
  }

  function Taken(x: Inbox): (Inbox, Option<Delivery>) {
    if x.frames == [] then (x, None)
    else (x.(frames := x.frames[1..], dropped := 0), Some(Delivery(x.frames[0], x.dropped)))
  }

  function Finished(x: Inbox): (Inbox, bool) {
    (x.(scheduled := x.frames != []), x.frames != [])
  }

  class VideoFrameInbox {
    var frames: seq<Frame>
    var scheduled: bool
    var dropped: nat
    var closed: bool

    function Value(): Inbox
      reads this
    {
      Inbox(frames, scheduled, dropped, closed)
    }

    constructor ()
      ensures Value() == Inbox([], false, 0, false)
    {
      frames, scheduled, dropped, closed := [], false, 0, false;
    }

    method Offer(value: Frame) returns (schedule: bool)
      modifies this
      ensures (Value(), schedule) == Offered(old(Value()), value)
    {
      if closed {
        return false;
      }
      if |frames| == CAPACITY {
        dropped := dropped + |frames|;
        frames := [];
      }
      frames := frames + [value];
      schedule := !scheduled;
      scheduled := true;
    }

    method Take() returns (result: Option<Delivery>)
      modifies this
      ensures (Value(), result) == Taken(old(Value()))
    {
      if frames == [] {
        return None;
      }
      var value := frames[0];
      frames := frames[1..];
      result := Some(Delivery(value, dropped));
      dropped := 0;
    }

    method FinishDelivery() returns (again: bool)
      modifies this
      ensures (Value(), again) == Finished(old(Value()))
    {
      scheduled := frames != [];
      again := scheduled;
    }

    method Close()
      modifies this
      ensures Value() == Inbox([], false, 0, true)
    {
      closed, frames, dropped, scheduled := true, [], 0, false;
    }
  }
}
