/** The same protocol with a clock and one worker: an entry can be claimed only when it has been idle for long
    enough, and the claim passes no idle entry over. Then the delivery limit holds whatever the backlog. */
module Clock {
  import opened Common
  import opened Stream
  import opened Protocol

  /** The system, when each entry was last delivered, and the time. */
  datatype Clocked = Clocked(s: System, last: seq<real>, now: real)

  predicate Due(c: Clocked, wait: real, id: nat) {
    id < |c.last| && c.now - c.last[id] >= wait
  }

  /** What a claim may take over: entries that are due, the lower ones first. */
  ghost predicate InTurn(c: Clocked, wait: real, idle: set<nat>) {
    && (forall id :: id in idle ==> Due(c, wait, id))
    && (forall low: nat, id: nat :: id in idle && low < id && Due(c, wait, low) ==> low in idle)
  }

  /** When each entry was last delivered, after the step. */
  function Delivered(c: Clocked, step: Step): seq<real> {
    match step
    case Read(_, n) => c.last + seq(n, _ => c.now)
    case Claim(_, idle) =>
      var ids := XAutoClaim(c.s.group, idle, SCAN).1;
      seq(|c.last|, i requires 0 <= i < |c.last| => if i in ids then c.now else c.last[i])
    case _ => c.last
  }

  /** One step at the current time, after which any time may pass. */
  ghost predicate Moves(max: nat, wait: real, c: Clocked, step: Step, c': Clocked) {
    && c.s.group.Valid() && Enabled(c.s, step) && (step.Claim? ==> InTurn(c, wait, step.idle))
    && c'.s == Next(max, c.s, step) && c'.last == Delivered(c, step) && c'.now >= c.now
  }

  ghost predicate IsClockedRun(max: nat, wait: real, workers: nat, steps: seq<Step>, states: seq<Clocked>) {
    && |states| == |steps| + 1 && states[0].s == Start(workers) && states[0].last == []
    && forall i :: 0 <= i < |steps| ==> Moves(max, wait, states[i], steps[i], states[i + 1])
  }

  // ---- Lower entries are never behind ----

  ghost predicate Dated(c: Clocked) {
    && c.s.group.Valid() && |c.last| == c.s.group.delivered
    && forall id: nat :: id < |c.last| ==> c.last[id] <= c.now
  }

  /** Of two pending entries the lower has been delivered more often, or as often and no later. */
  predicate Ahead(c: Clocked, low: nat, id: nat)
    requires low < |c.s.group.times| && id < |c.s.group.times| && |c.last| == |c.s.group.times|
  {
    || c.s.group.times[low] > c.s.group.times[id]
    || (c.s.group.times[low] == c.s.group.times[id] && c.last[low] <= c.last[id])
  }

  ghost predicate LowFirst(c: Clocked) {
    Dated(c) && forall low: nat, id: nat ::
      low < id && low in c.s.group.pending && id in c.s.group.pending ==> Ahead(c, low, id)
  }

  /** A claim takes an entry only together with every lower one that is due. */
  lemma ClaimInTurn(c: Clocked, wait: real, idle: set<nat>, low: nat, id: nat)
    requires c.s.group.Valid() && InTurn(c, wait, idle) && low < id && low in c.s.group.pending
    requires var ids := XAutoClaim(c.s.group, idle, SCAN).1; id in ids && low !in ids
    ensures Due(c, wait, id) && !Due(c, wait, low)
  {
    if Due(c, wait, low) {
      assert low in c.s.group.pending * idle;
      LowestDownward(c.s.group.pending * idle, c.s.group.delivered, SCAN, low, id);
    }
  }

  lemma {:induction false} LowestDownward(ids: set<nat>, bound: nat, count: nat, low: nat, id: nat)
    requires low < id && low in ids && id in Lowest(ids, bound, count)
    ensures low in Lowest(ids, bound, count)
  {
    if id != bound - 1 || id in Lowest(ids, bound - 1, count) {
      LowestDownward(ids, bound - 1, count, low, id);
    } else {
      LowestNotFull(ids, bound - 1, count, low);
    }
  }

  /** A selection with room left has passed nothing over. */
  lemma {:induction false} LowestNotFull(ids: set<nat>, bound: nat, count: nat, x: nat)
    requires |Lowest(ids, bound, count)| < count && x in ids && x < bound
    ensures x in Lowest(ids, bound, count)
  {
    if x < bound - 1 {
      LowestNotFull(ids, bound - 1, count, x);
    }
  }

  lemma ClaimLowFirst(max: nat, wait: real, c: Clocked, w: nat, idle: set<nat>, c': Clocked)
    requires wait > 0.0 && LowFirst(c) && Moves(max, wait, c, Claim(w, idle), c')
    ensures LowFirst(c')
  {
    var ids := XAutoClaim(c.s.group, idle, SCAN).1;
    forall low: nat, id: nat | low < id && low in c'.s.group.pending && id in c'.s.group.pending
      ensures Ahead(c', low, id)
    {
      assert Ahead(c, low, id);
      if id in ids && low !in ids {
        ClaimInTurn(c, wait, idle, low, id);
      }
    }
  }

  lemma ReadLowFirst(max: nat, wait: real, c: Clocked, w: nat, n: nat, c': Clocked)
    requires LowFirst(c) && Counted(c.s) && Moves(max, wait, c, Read(w, n), c')
    ensures LowFirst(c') && Counted(c'.s)
  {
    forall low: nat, id: nat | low < id && low in c'.s.group.pending && id in c'.s.group.pending
      ensures Ahead(c', low, id)
    {
      if id < c.s.group.delivered {
        assert low in c.s.group.pending && id in c.s.group.pending;
        assert Ahead(c, low, id);
      }
    }
  }

  /** Whatever has been delivered has been delivered at least once. */
  ghost predicate Counted(s: System) {
    s.group.Valid() && forall id: nat :: id < |s.group.times| ==> s.group.times[id] >= 1
  }

  lemma StepLowFirst(max: nat, wait: real, c: Clocked, step: Step, c': Clocked)
    requires wait > 0.0 && LowFirst(c) && Counted(c.s) && Moves(max, wait, c, step, c')
    ensures LowFirst(c') && Counted(c'.s)
  {
    match step
    case Read(w, n) => ReadLowFirst(max, wait, c, w, n, c');
    case Claim(w, idle) => ClaimLowFirst(max, wait, c, w, idle, c');
    case _ => QuietLowFirst(c, c');
  }

  lemma QuietLowFirst(c: Clocked, c': Clocked)
    requires LowFirst(c) && c'.s.group.Valid() && c'.last == c.last && c'.now >= c.now
    requires c'.s.group.delivered == c.s.group.delivered
    requires c'.s.group.times == c.s.group.times && c'.s.group.pending <= c.s.group.pending
    ensures LowFirst(c')
  {
    forall low: nat, id: nat | low < id && low in c'.s.group.pending && id in c'.s.group.pending
      ensures Ahead(c', low, id)
    {
      assert Ahead(c, low, id);
    }
  }

  // ---- The scan sees everything over the limit ----

  /** The pending entries delivered more often than the limit. */
  function Over(max: nat, g: Group): set<nat> {
    set id | id in g.pending && id < |g.times| && g.times[id] > max
  }

  function UpTo(ids: set<nat>, x: nat): set<nat> {
    set y | y in ids && y <= x
  }

  lemma {:induction false} LowestHas(ids: set<nat>, bound: nat, count: nat, x: nat)
    requires x in ids && x < bound && |UpTo(ids, x)| <= count
    ensures x in Lowest(ids, bound, count)
  {
    if x == bound - 1 {
      var below := set y | y in ids && y < x;
      assert UpTo(ids, x) == below + {x};
      LowestFits(ids, x, count);
    } else {
      LowestHas(ids, bound - 1, count, x);
    }
  }

  /** Entries over the limit are the lowest pending ones, so a scan of 64 that are at most 64 misses none. */
  lemma ScanSeesOver(max: nat, c: Clocked)
    requires LowFirst(c) && |Over(max, c.s.group)| <= SCAN
    ensures OverLimit(max, c.s.group) == Over(max, c.s.group)
  {
    var g := c.s.group;
    forall x | x in Over(max, g) ensures x in XPendingRange(g, SCAN) {
      var upto := UpTo(g.pending, x);
      forall y | y in upto ensures y in Over(max, g) {
        assert y < x ==> Ahead(c, y, x);
      }
      SubsetSize(upto, Over(max, g));
      LowestHas(g.pending, g.delivered, SCAN, x);
    }
  }

  // ---- The limit ----

  /** No entry is over the limit by more than one delivery; at most a scan's worth are over it at all; and a worker
      that has scanned knows each of those. */
  ghost predicate Limited(max: nat, c: Clocked) {
    && LowFirst(c) && Counted(c.s) && |c.s.workers| == 1
    && (forall id: nat :: id < |c.s.group.times| ==> c.s.group.times[id] <= max + 1)
    && |Over(max, c.s.group)| <= SCAN
    && Known(max, c.s.group, c.s.workers[0])
  }

  ghost predicate Known(max: nat, g: Group, me: Worker) {
    me.phase.Scanned? ==> forall id :: id in Over(max, g) ==> id in me.phase.poison || me.owes == Some(id)
  }

  lemma ClaimLimited(max: nat, wait: real, c: Clocked, w: nat, idle: set<nat>, c': Clocked)
    requires wait > 0.0 && Limited(max, c) && Moves(max, wait, c, Claim(w, idle), c')
    ensures Limited(max, c')
  {
    var ids := XAutoClaim(c.s.group, idle, SCAN).1;
    StepLowFirst(max, wait, c, Claim(w, idle), c');
    assert Over(max, c.s.group) == {};
    forall id | id in c.s.group.pending ensures c.s.group.times[id] <= max {
      assert id !in Over(max, c.s.group);
    }
    assert Over(max, c'.s.group) <= ToSet(ids);
    LowestDistinct(c.s.group.pending * idle, c.s.group.delivered, SCAN);
    DistinctSize(ids);
    SubsetSize(Over(max, c'.s.group), ToSet(ids));
  }

  lemma ScanLimited(max: nat, wait: real, c: Clocked, w: nat, c': Clocked)
    requires wait > 0.0 && Limited(max, c) && Moves(max, wait, c, Scan(w), c')
    ensures Limited(max, c')
  {
    StepLowFirst(max, wait, c, Scan(w), c');
    ScanSeesOver(max, c);
  }

  lemma ReadLimited(max: nat, wait: real, c: Clocked, w: nat, n: nat, c': Clocked)
    requires wait > 0.0 && max >= 1 && Limited(max, c) && Moves(max, wait, c, Read(w, n), c')
    ensures Limited(max, c')
  {
    StepLowFirst(max, wait, c, Read(w, n), c');
    assert Over(max, c'.s.group) <= Over(max, c.s.group);
    SubsetSize(Over(max, c'.s.group), Over(max, c.s.group));
  }

  lemma OtherLimited(max: nat, wait: real, c: Clocked, step: Step, c': Clocked)
    requires wait > 0.0 && Limited(max, c) && Moves(max, wait, c, step, c')
    requires !step.Read? && !step.Claim? && !step.Scan?
    ensures Limited(max, c')
  {
    StepLowFirst(max, wait, c, step, c');
    assert Over(max, c'.s.group) <= Over(max, c.s.group);
    SubsetSize(Over(max, c'.s.group), Over(max, c.s.group));
  }

  lemma {:induction false} RunLimited(max: nat, wait: real, steps: seq<Step>, states: seq<Clocked>, i: nat)
    requires max >= 1 && wait > 0.0 && IsClockedRun(max, wait, 1, steps, states) && i < |states|
    ensures Limited(max, states[i])
  {
    if i > 0 {
      RunLimited(max, wait, steps, states, i - 1);
      match steps[i - 1]
      case Read(w, n) => ReadLimited(max, wait, states[i - 1], w, n, states[i]);
      case Claim(w, idle) => ClaimLimited(max, wait, states[i - 1], w, idle, states[i]);
      case Scan(w) => ScanLimited(max, wait, states[i - 1], w, states[i]);
      case _ => OtherLimited(max, wait, states[i - 1], steps[i - 1], states[i]);
    }
  }

  /** The documented limit: one worker that honours the idle time delivers no entry more than `max + 1` times, however
      many entries are pending and however often it crashes. */
  lemma LoneWorkerLimit(max: nat, wait: real, steps: seq<Step>, states: seq<Clocked>, i: nat, id: nat)
    requires max >= 1 && wait > 0.0 && IsClockedRun(max, wait, 1, steps, states) && i < |states|
    requires id < |states[i].s.group.times|
    ensures states[i].s.group.times[id] <= max + 1
  {
    RunLimited(max, wait, steps, states, i);
  }
}
