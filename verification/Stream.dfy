/** A Redis stream with one consumer group, as the commands the stream client issues see it. Entry ids are
    positions in the log; nothing is trimmed. */
module Stream {
  import opened Common
  import opened Store

  /** What an entry carries: no payload field, a payload that is not JSON, JSON that is not a valid event, or
      an event. */
  datatype Body = NoPayload | NotJson | NotEvent | Good(event: Event)

  datatype Reason = MissingField | BadJson | InvalidEvent | Poison

  datatype Parked = Parked(id: nat, reason: Reason)

  /** `times` counts the deliveries of every entry delivered so far; an acknowledged entry leaves `pending`
      and never returns to it. */
  datatype Group = Group(log: seq<Body>, delivered: nat, pending: set<nat>, times: seq<nat>, dlq: seq<Parked>)
  {
    ghost predicate Valid() {
      delivered <= |log| && |times| == delivered && forall id :: id in pending ==> id < delivered
    }
  }

  function BodyOf(g: Group, id: nat): Body {
    if id < |g.log| then g.log[id] else NoPayload
  }

  const FRESH := Group([], 0, {}, [], [])

  /** The `count` smallest members of `ids` below `bound`, in order. */
  function Lowest(ids: set<nat>, bound: nat, count: nat): (r: seq<nat>)
    ensures |r| <= count && forall x :: x in r ==> x in ids && x < bound
  {
    if bound == 0 then []
    else
      var r := Lowest(ids, bound - 1, count);
      if bound - 1 in ids && |r| < count then r + [bound - 1] else r
  }

  function XAdd(g: Group, body: Body): Group {
    g.(log := g.log + [body])
  }

  function Range(lo: nat, n: nat): (r: seq<nat>)
    ensures |r| == n && forall i :: 0 <= i < n ==> r[i] == lo + i
  {
    seq(n, i requires 0 <= i => lo + i)
  }

  /** Deliver the next `n` entries for the first time. */
  function XReadGroup(g: Group, n: nat): (Group, seq<nat>) {
    var ids := Range(g.delivered, n);
    (g.(delivered := g.delivered + n, pending := g.pending + ToSet(ids), times := g.times + seq(n, _ => 1)), ids)
  }

  /** The lowest pending ids, as many as fit the scan. */
  function XPendingRange(g: Group, count: nat): seq<nat> {
    Lowest(g.pending, g.delivered, count)
  }

  /** Take over pending entries among those idle for long enough, counting the delivery. */
  function XAutoClaim(g: Group, idle: set<nat>, count: nat): (Group, seq<nat>) {
    var ids := Lowest(g.pending * idle, g.delivered, count);
    (g.(times := seq(|g.times|, i requires 0 <= i < |g.times| => g.times[i] + (if i in ids then 1 else 0))), ids)
  }

  function XAck(g: Group, ids: seq<nat>): Group {
    g.(pending := g.pending - ToSet(ids))
  }

  function DlqAdd(g: Group, id: nat, reason: Reason): Group {
    g.(dlq := g.dlq + [Parked(id, reason)])
  }

  predicate InDlq(g: Group, id: nat) {
    exists p :: p in g.dlq && p.id == id
  }

  lemma LowestDistinct(ids: set<nat>, bound: nat, count: nat)
    ensures Distinct(Lowest(ids, bound, count))
  {
    if bound > 0 {
      LowestDistinct(ids, bound - 1, count);
    }
  }

  function Under(ids: set<nat>, bound: nat): set<nat> {
    set x | x in ids && x < bound
  }

  lemma {:induction false} UnderOneMore(ids: set<nat>, bound: nat)
    ensures Under(ids, bound + 1) == Under(ids, bound) + (if bound in ids then {bound} else {})
    ensures |Under(ids, bound + 1)| == |Under(ids, bound)| + (if bound in ids then 1 else 0)
  {
    assert Under(ids, bound + 1) == Under(ids, bound) + (if bound in ids then {bound} else {});
  }

  /** A scan with room to spare sees everything. */
  lemma {:induction false} LowestIsAll(ids: set<nat>, bound: nat, count: nat)
    requires |Under(ids, bound)| <= count
    ensures forall x :: x in ids && x < bound ==> x in Lowest(ids, bound, count)
  {
    if bound > 0 {
      UnderOneMore(ids, bound - 1);
      LowestIsAll(ids, bound - 1, count);
      LowestFits(ids, bound - 1, count);
    }
  }

  lemma {:induction false} LowestFits(ids: set<nat>, bound: nat, count: nat)
    ensures |Lowest(ids, bound, count)| <= |Under(ids, bound)|
  {
    if bound > 0 {
      UnderOneMore(ids, bound - 1);
      LowestFits(ids, bound - 1, count);
    }
  }
}
