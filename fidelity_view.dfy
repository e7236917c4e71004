/** The customer's card view. One local slot, `livePoints`, is seeded from
    the `points` prop and then overwritten, last write wins, by two sources:
    realtime change notifications for the customer's card and a polling read
    of the card. Both sources write the card's `total_visits`, although the
    home page seeds the view with `current_stamps`. A poll result that
    arrives after the view has been torn down (`cancelled`) is dropped. */
module FidelityView {
  import opened Common
  import opened Store
  import Reward

  /** What a notification or a poll read carries: no row at all, or a row
      whose `total_visits` is a number (`Some`) or is not (`None`: null,
      missing or of another type). */
  datatype Payload = NoRow | Row(totalVisits: Option<int>)

  /** Something that reaches the slot: a realtime notification, or the reply
      of one polling read (which may be an error). */
  datatype Arrival = Push(payload: Payload) | Poll(reply: Reply<Payload>)

  /** `useState(points ?? 0)`. */
  function Seed(points: Option<int>): (live: int)
    ensures points.Some? ==> live == points.value
    ensures points.None? ==> live == 0
  {
    if points.Some? then points.value else 0
  }

  /** The number a payload would write, if any. */
  function Numeric(p: Payload): Option<int> {
    if p.Row? && p.totalVisits.Some? then Some(p.totalVisits.value) else None
  }

  /** The value an arrival writes into the slot, if it writes one: a push
      writes any numeric `total_visits`; a poll does the same unless it failed
      or the view was cancelled. */
  function Written(cancelled: bool, a: Arrival): (w: Option<int>)
    ensures a.Push? ==> w == Numeric(a.payload)
    ensures a.Poll? && (cancelled || a.reply.Err?) ==> w.None?
    ensures a.Poll? && !cancelled && a.reply.Ok? ==> w == Numeric(a.reply.value)
  {
    match a
    case Push(p) => Numeric(p)
    case Poll(reply) => if reply.Err? || cancelled then None else Numeric(reply.value)
  }

  /** One arrival applied to the slot. */
  function Arrive(live: int, cancelled: bool, a: Arrival): int {
    var w := Written(cancelled, a);
    if w.Some? then w.value else live
  }

  /** The slot after a run of arrivals, in arrival order. */
  function LiveAfter(live: int, cancelled: bool, arrivals: seq<Arrival>): int {
    if arrivals == [] then live
    else Arrive(LiveAfter(live, cancelled, arrivals[..|arrivals| - 1]), cancelled, arrivals[|arrivals| - 1])
  }

  /** The index of the last arrival that writes, if any. */
  function LastWriter(cancelled: bool, arrivals: seq<Arrival>): (k: int)
    ensures -1 <= k < |arrivals|
    ensures k >= 0 ==> Written(cancelled, arrivals[k]).Some?
    ensures forall j :: k < j < |arrivals| ==> Written(cancelled, arrivals[j]).None?
  {
    if arrivals == [] then -1
    else if Written(cancelled, arrivals[|arrivals| - 1]).Some? then |arrivals| - 1
    else LastWriter(cancelled, arrivals[..|arrivals| - 1])
  }

  /** Last write wins: after any run of arrivals the slot holds what the last
      writing arrival wrote, or its earlier value when none of them wrote. */
  lemma {:induction false} LastWriteWins(live: int, cancelled: bool, arrivals: seq<Arrival>)
    ensures var k := LastWriter(cancelled, arrivals);
      LiveAfter(live, cancelled, arrivals) ==
        if k < 0 then live else Written(cancelled, arrivals[k]).value
  {
    if arrivals != [] {
      var prefix := arrivals[..|arrivals| - 1];
      LastWriteWins(live, cancelled, prefix);
      var k := LastWriter(cancelled, prefix);
      if k >= 0 { assert arrivals[k] == prefix[k]; }
    }
  }

  /** Once cancelled, no sequence of poll replies moves the slot. */
  lemma {:induction false} CancelledPollsIgnored(live: int, replies: seq<Reply<Payload>>)
    ensures LiveAfter(live, true, seq(|replies|, i requires 0 <= i < |replies| => Poll(replies[i]))) == live
  {
    var arrivals := seq(|replies|, i requires 0 <= i < |replies| => Poll(replies[i]));
    LastWriteWins(live, true, arrivals);
  }

  /** The view's state is seeded from `current_stamps` but then fed
      `total_visits`: for a card whose two counters differ, the first push of
      that very card changes what the view shows. */
  lemma SeedAndPushDisagree(c: Card)
    requires c.cols.currentStamps.Some? && c.cols.totalVisits.Some?
    requires c.cols.currentStamps != c.cols.totalVisits
    ensures Arrive(Seed(c.cols.currentStamps), false, Push(Row(c.cols.totalVisits))) != Seed(c.cols.currentStamps)
  {
  }

  /** The slot and the cancel flag of one mounted view. */
  class FidelityCard {
    const requiredPoints: nat
    var livePoints: int
    var cancelled: bool

    constructor (points: Option<int>, requiredPoints: nat)
      ensures this.requiredPoints == requiredPoints
      ensures livePoints == Seed(points) && !cancelled
    {
      this.requiredPoints := requiredPoints;
      livePoints := Seed(points);
      cancelled := false;
    }

    /** The effect on `points`: a numeric prop re-seeds the slot. */
    method PointsChanged(points: Option<int>)
      modifies this`livePoints
      ensures livePoints == if points.Some? then points.value else old(livePoints)
    {
      if points.Some? {
        livePoints := points.value;
      }
    }

    /** The realtime handler: `if (row && typeof row.total_visits === "number")`. */
    method OnPush(payload: Payload)
      modifies this`livePoints
      ensures livePoints == Arrive(old(livePoints), cancelled, Push(payload))
      ensures Numeric(payload).Some? ==> livePoints == payload.totalVisits.value
      ensures Numeric(payload).None? ==> livePoints == old(livePoints)
    {
      if payload.Row? && payload.totalVisits.Some? {
        livePoints := payload.totalVisits.value;
      }
    }

    /** The polling read's continuation: errors are only logged, and a result
        is applied only while the view is not cancelled. */
    method OnPoll(reply: Reply<Payload>)
      modifies this`livePoints
      ensures livePoints == Arrive(old(livePoints), cancelled, Poll(reply))
      ensures cancelled || reply.Err? ==> livePoints == old(livePoints)
    {
      if reply.Err? {
        return;
      }
      var data := reply.value;
      if !cancelled && data.Row? && data.totalVisits.Some? {
        livePoints := data.totalVisits.value;
      }
    }

    /** The polling effect's cleanup. */
    method Cancel()
      modifies this`cancelled
      ensures cancelled
    {
      cancelled := true;
    }

    /** What the card shows for the current slot. */
    function Display(): (e: Reward.Evaluation)
      reads this
      ensures e.filled + e.remaining == requiredPoints
      ensures e.progressScaled == 100 * requiredPoints <==> livePoints >= requiredPoints
    {
      Reward.Evaluate(livePoints, requiredPoints)
    }
  }
}
