/** The clocked protocol with several workers: whatever limit is named, some backlog takes an entry past it. Two workers
    that scan at the same moment see the same poison, so parking one scan's worth lets each of them claim another. */
module ClockLimits {
  import opened Common
  import opened Stream
  import opened Protocol
  import opened Clock

  ghost predicate Reachable(max: nat, wait: real, workers: nat, c: Clocked) {
    exists steps: seq<Step>, states: seq<Clocked> ::
      IsClockedRun(max, wait, workers, steps, states) && states[|steps|] == c
  }

  lemma {:induction false} ReachStart(max: nat, wait: real, workers: nat, c: Clocked)
    requires c.s == Start(workers) && c.last == []
    ensures Reachable(max, wait, workers, c)
  {
    var steps: seq<Step>, states := [], [c];
    assert IsClockedRun(max, wait, workers, steps, states) && states[|steps|] == c;
  }

  lemma {:induction false} ReachMove(max: nat, wait: real, workers: nat, c: Clocked, step: Step, c': Clocked)
    requires Reachable(max, wait, workers, c) && Moves(max, wait, c, step, c')
    ensures Reachable(max, wait, workers, c')
  {
    var steps: seq<Step>, states: seq<Clocked> :|
      IsClockedRun(max, wait, workers, steps, states) && states[|steps|] == c;
    var steps', states' := steps + [step], states + [c'];
    forall i | 0 <= i < |steps'| ensures Moves(max, wait, states'[i], steps'[i], states'[i + 1]) {
      if i < |steps| {
        assert states'[i] == states[i] && steps'[i] == steps[i] && states'[i + 1] == states[i + 1];
      }
    }
    assert IsClockedRun(max, wait, workers, steps', states') && states'[|steps'|] == c';
  }

  // ---- What a sweep over the backlog looks like ----

  /** Pending is everything from `a` on. Up to `m` it has just been delivered once more than `t` times; from there to
      `b` it has been delivered `t` times and is due. */
  ghost predicate Backlog(c: Clocked, wait: real, a: nat, m: nat, b: nat, t: nat) {
    && c.s.group.Valid() && |c.last| == c.s.group.delivered && a <= m <= b <= c.s.group.delivered
    && (forall x: nat :: x in c.s.group.pending <==> a <= x < c.s.group.delivered)
    && (forall x: nat :: a <= x < m ==> c.s.group.times[x] == t + 1 && c.last[x] == c.now)
    && (forall x: nat :: m <= x < b ==> c.s.group.times[x] == t && c.now - c.last[x] >= wait)
  }

  lemma {:induction false} LowestFrom(ids: set<nat>, lo: nat, k: nat, bound: nat, count: nat)
    requires lo <= bound && k == (if bound - lo < count then bound - lo else count)
    requires forall x: nat :: x < lo ==> x !in ids
    requires forall x: nat :: lo <= x < lo + k ==> x in ids
    ensures Lowest(ids, bound, count) == Range(lo, k)
  {
    if bound == lo {
      NoneBelow(ids, bound, count);
    } else if bound - lo <= count {
      LowestFrom(ids, lo, k - 1, bound - 1, count);
      assert Range(lo, k) == Range(lo, k - 1) + [bound - 1];
    } else {
      LowestFrom(ids, lo, k, bound - 1, count);
    }
  }

  lemma {:induction false} NoneBelow(ids: set<nat>, bound: nat, count: nat)
    requires forall x: nat :: x < bound ==> x !in ids
    ensures Lowest(ids, bound, count) == []
  {
    if bound > 0 {
      NoneBelow(ids, bound - 1, count);
    }
  }

  lemma RangeHas(lo: nat, k: nat)
    ensures forall x: nat :: x in Range(lo, k) <==> lo <= x < lo + k
    ensures forall x: nat :: x in ToSet(Range(lo, k)) <==> lo <= x < lo + k
  {
    forall x: nat | lo <= x < lo + k ensures x in Range(lo, k) {
      assert Range(lo, k)[x - lo] == x;
    }
  }

  // ---- Scanning and parking ----

  /** The poison a scan sees: a whole scan's worth, or none. */
  function Seen(a: nat, poison: bool): set<nat> {
    if poison then ToSet(Range(a, SCAN)) else {}
  }

  lemma {:induction false} ScanSees(max: nat, c: Clocked, wait: real, a: nat, m: nat, b: nat, t: nat, level: nat)
    requires Backlog(c, wait, a, m, b, t) && a + SCAN <= b
    requires if m == a then level == t else m >= a + SCAN && level == t + 1
    ensures OverLimit(max, c.s.group) == Seen(a, level > max)
  {
    var g := c.s.group;
    LowestFrom(g.pending, a, SCAN, g.delivered, SCAN);
    RangeHas(a, SCAN);
    forall x: nat | a <= x < a + SCAN ensures g.times[x] == level {
    }
  }

  lemma {:induction false} ScanMove(max: nat, wait: real, workers: nat, c: Clocked, w: nat, seen: set<nat>)
    returns (c': Clocked)
    requires Reachable(max, wait, workers, c) && c.s.group.Valid() && w < |c.s.workers| && c.s.workers[w] == REST
    requires seen == OverLimit(max, c.s.group)
    ensures Reachable(max, wait, workers, c') && c'.last == c.last && c'.now == c.now
    ensures c'.s.group == c.s.group && c'.s.workers == c.s.workers[w := Worker(Scanned(seen), None)]
  {
    c' := Clocked(Next(max, c.s, Scan(w)), c.last, c.now);
    ReachMove(max, wait, workers, c, Scan(w), c');
  }

  /** Parking one entry, in two commands. */
  lemma {:induction false} ParkMove(max: nat, wait: real, workers: nat, c: Clocked, w: nat, poison: set<nat>, id: nat)
    returns (c': Clocked)
    requires Reachable(max, wait, workers, c) && c.s.group.Valid() && w < |c.s.workers|
    requires c.s.workers[w] == Worker(Scanned(poison), None) && id in poison
    ensures Reachable(max, wait, workers, c') && c'.last == c.last && c'.now == c.now && c'.s.group.Valid()
    ensures c'.s.group == c.s.group.(pending := c.s.group.pending - {id}, dlq := c'.s.group.dlq)
    ensures c'.s.workers == c.s.workers[w := Worker(Scanned(poison - {id}), None)]
  {
    var mid := Clocked(Next(max, c.s, ParkPoison(w, id)), c.last, c.now);
    ReachMove(max, wait, workers, c, ParkPoison(w, id), mid);
    c' := Clocked(Next(max, mid.s, AckParked(w)), c.last, c.now);
    ReachMove(max, wait, workers, mid, AckParked(w), c');
    assert ToSet([id]) == {id};
  }

  lemma {:induction false} ParkAll(max: nat, wait: real, workers: nat, c: Clocked, w: nat, poison: set<nat>)
    returns (c': Clocked)
    requires Reachable(max, wait, workers, c) && c.s.group.Valid() && w < |c.s.workers|
    requires c.s.workers[w] == Worker(Scanned(poison), None)
    ensures Reachable(max, wait, workers, c') && c'.last == c.last && c'.now == c.now && c'.s.group.Valid()
    ensures c'.s.group == c.s.group.(pending := c.s.group.pending - poison, dlq := c'.s.group.dlq)
    ensures c'.s.workers == c.s.workers[w := Worker(Scanned({}), None)]
    decreases |poison|
  {
    if poison == {} {
      c' := c;
      assert c.s.group.pending - {} == c.s.group.pending;
    } else {
      var id :| id in poison;
      var mid := ParkMove(max, wait, workers, c, w, poison, id);
      c' := ParkAll(max, wait, workers, mid, w, poison - {id});
      assert c.s.group.pending - {id} - (poison - {id}) == c.s.group.pending - poison;
    }
  }

  // ---- Claiming ----

  /** Everything due below `x`. */
  function DueBelow(c: Clocked, wait: real, x: nat): set<nat> {
    set i | 0 <= i < x && Due(c, wait, i)
  }

  lemma {:induction false} ClaimTakes(c: Clocked, wait: real, a: nat, m: nat, b: nat, t: nat)
    requires wait > 0.0 && Backlog(c, wait, a, m, b, t) && m + SCAN <= b
    ensures XAutoClaim(c.s.group, DueBelow(c, wait, m + SCAN), SCAN).1 == Range(m, SCAN)
    ensures InTurn(c, wait, DueBelow(c, wait, m + SCAN))
  {
    var g, idle := c.s.group, DueBelow(c, wait, m + SCAN);
    LowestFrom(g.pending * idle, m, SCAN, g.delivered, SCAN);
  }

  /** Whoever claims takes the next scan's worth, which then counts one delivery more. */
  lemma {:induction false} ClaimMove(max: nat, wait: real, workers: nat, c: Clocked, w: nat, a: nat, m: nat, b: nat,
                                     t: nat)
    returns (c': Clocked)
    requires wait > 0.0 && Reachable(max, wait, workers, c) && Backlog(c, wait, a, m, b, t) && m + SCAN <= b
    requires w < |c.s.workers| && c.s.workers[w] == Worker(Scanned({}), None)
    ensures Reachable(max, wait, workers, c') && Backlog(c', wait, a, m + SCAN, b, t)
    ensures c'.s.workers == c.s.workers[w := REST]
  {
    var idle, ids := DueBelow(c, wait, m + SCAN), Range(m, SCAN);
    ClaimTakes(c, wait, a, m, b, t);
    RangeHas(m, SCAN);
    var step := Claim(w, idle);
    var mid := Clocked(Next(max, c.s, step), Delivered(c, step), c.now);
    ReachMove(max, wait, workers, c, step, mid);
    assert Backlog(mid, wait, a, m + SCAN, b, t);
    c' := Clocked(Next(max, mid.s, Crash(w)), mid.last, mid.now);
    ReachMove(max, wait, workers, mid, Crash(w), c');
  }

  // ---- One round of two workers ----

  function Resting(workers: nat): seq<Worker> { seq(workers, _ => REST) }

  /** After parking what both saw. */
  lemma {:induction false} Parked(c: Clocked, c': Clocked, wait: real, a: nat, m: nat, b: nat, t: nat, poison: bool,
                                  a': nat, m': nat)
    requires Backlog(c, wait, a, m, b, t) && c'.last == c.last && c'.now == c.now && c'.s.group.Valid()
    requires c'.s.group == c.s.group.(pending := c.s.group.pending - Seen(a, poison), dlq := c'.s.group.dlq)
    requires a' == (if poison then a + SCAN else a) && m' == (if m < a' then a' else m) && m' <= b
    ensures Backlog(c', wait, a', m', b, t)
  {
    RangeHas(a, SCAN);
  }

  /** Two workers scan, park what they saw and claim, one after the other, and crash. */
  lemma {:induction false} Round(max: nat, wait: real, workers: nat, c: Clocked, a: nat, m: nat, b: nat, t: nat,
                                 level: nat)
    returns (c': Clocked, a': nat, m': nat)
    requires wait > 0.0 && workers >= 2 && Reachable(max, wait, workers, c) && Backlog(c, wait, a, m, b, t)
    requires c.s.workers == Resting(workers) && (if m == a && level > max then m + SCAN else m) + 2 * SCAN <= b
    requires if m == a then level == t else m >= a + SCAN && level == t + 1
    ensures Reachable(max, wait, workers, c') && Backlog(c', wait, a', m', b, t)
    ensures c'.s.workers == Resting(workers)
    ensures a' == (if level > max then a + SCAN else a) && m' == (if m < a' then a' else m) + 2 * SCAN
  {
    var poison := level > max;
    var seen := Seen(a, poison);
    ScanSees(max, c, wait, a, m, b, t, level);
    var c1 := ScanMove(max, wait, workers, c, 0, seen);
    var c2 := ScanMove(max, wait, workers, c1, 1, seen);
    var c3 := ParkAll(max, wait, workers, c2, 0, seen);
    var c4 := ParkAll(max, wait, workers, c3, 1, seen);
    a' := if poison then a + SCAN else a;
    m' := if m < a' then a' else m;
    assert c.s.group.pending - seen - seen == c.s.group.pending - seen;
    Parked(c, c4, wait, a, m, b, t, poison, a', m');
    var c5 := ClaimMove(max, wait, workers, c4, 0, a', m', b, t);
    c' := ClaimMove(max, wait, workers, c5, 1, a', m' + SCAN, b, t);
    m' := m' + 2 * SCAN;
    assert c'.s.workers == Resting(workers);
  }

  // ---- A sweep ----

  /** Between rounds: how far the sweep has got after `k` of them. */
  ghost predicate Sweeping(c: Clocked, wait: real, workers: nat, a: nat, b: nat, t: nat, k: nat, a': nat, m: nat) {
    && Backlog(c, wait, a', m, b, t) && c.s.workers == Resting(workers)
    && a <= a' && m <= a + (2 * k + 1) * SCAN
    && if k == 0 then a' == a == m else m >= a' + (k + 1) * SCAN
  }

  lemma {:induction false} Rounds(max: nat, wait: real, workers: nat, c: Clocked, a: nat, b: nat, t: nat, k: nat)
    returns (c': Clocked, a': nat, m: nat)
    requires wait > 0.0 && workers >= 2 && Reachable(max, wait, workers, c) && Backlog(c, wait, a, a, b, t)
    requires c.s.workers == Resting(workers) && a + (2 * k + 1) * SCAN <= b
    ensures Reachable(max, wait, workers, c') && Sweeping(c', wait, workers, a, b, t, k, a', m)
  {
    if k == 0 {
      c', a', m := c, a, a;
    } else {
      var mid, a1, m1 := Rounds(max, wait, workers, c, a, b, t, k - 1);
      c', a', m := Round(max, wait, workers, mid, a1, m1, b, t, if k == 1 then t else t + 1);
    }
  }

  /** Time passes: everything just delivered falls due again. */
  lemma {:induction false} Wait(max: nat, wait: real, workers: nat, c: Clocked, a: nat, m: nat, b: nat, t: nat)
    returns (c': Clocked)
    requires wait > 0.0 && workers >= 1 && Reachable(max, wait, workers, c) && Backlog(c, wait, a, m, b, t)
    requires c.s.workers == Resting(workers)
    ensures Reachable(max, wait, workers, c') && Backlog(c', wait, a, a, m, t + 1) && c'.s.workers == Resting(workers)
  {
    c' := Clocked(Next(max, c.s, Crash(0)), c.last, c.now + wait);
    ReachMove(max, wait, workers, c, Crash(0), c');
  }

  /** A sweep leaves half of the backlog, and one scan's worth, with one delivery more. */
  lemma {:induction false} Sweep(max: nat, wait: real, workers: nat, c: Clocked, a: nat, b: nat, t: nat, k: nat)
    returns (c': Clocked, a': nat, b': nat)
    requires wait > 0.0 && workers >= 2 && k >= 1 && Reachable(max, wait, workers, c) && Backlog(c, wait, a, a, b, t)
    requires c.s.workers == Resting(workers) && a + (2 * k + 1) * SCAN <= b
    ensures Reachable(max, wait, workers, c') && Backlog(c', wait, a', a', b', t + 1)
    ensures c'.s.workers == Resting(workers) && a' + (k + 1) * SCAN <= b'
  {
    var mid, a1, m := Rounds(max, wait, workers, c, a, b, t, k);
    c' := Wait(max, wait, workers, mid, a1, m, b, t);
    a', b' := a1, m;
  }

  function Doubled(n: nat): (r: nat)
    ensures r >= 1
  {
    if n == 0 then 1 else 2 * Doubled(n - 1)
  }

  /** Sweep after sweep, a delivery more each time. */
  lemma {:induction false} Sweeps(max: nat, wait: real, workers: nat, c: Clocked, a: nat, b: nat, t: nat, n: nat)
    returns (c': Clocked, a': nat, b': nat)
    requires wait > 0.0 && workers >= 2 && Reachable(max, wait, workers, c) && Backlog(c, wait, a, a, b, t)
    requires c.s.workers == Resting(workers) && a + (Doubled(n) + 1) * SCAN <= b
    ensures Reachable(max, wait, workers, c') && Backlog(c', wait, a', a', b', t + n) && a' < b'
    decreases n
  {
    if n == 0 {
      c', a', b' := c, a, b;
    } else {
      var mid, a1, b1 := Sweep(max, wait, workers, c, a, b, t, Doubled(n - 1));
      c', a', b' := Sweeps(max, wait, workers, mid, a1, b1, t + 1, n - 1);
    }
  }

  // ---- From a fresh start ----

  lemma {:induction false} Publishing(max: nat, wait: real, workers: nat, n: nat) returns (c: Clocked)
    ensures Reachable(max, wait, workers, c) && c.last == [] && c.s.workers == Resting(workers)
    ensures c.s.group == Group(seq(n, _ => NotEvent), 0, {}, [], [])
  {
    if n == 0 {
      c := Clocked(Start(workers), [], 0.0);
      ReachStart(max, wait, workers, c);
    } else {
      var mid := Publishing(max, wait, workers, n - 1);
      c := Clocked(Next(max, mid.s, Publish(NotEvent)), [], mid.now);
      ReachMove(max, wait, workers, mid, Publish(NotEvent), c);
    }
  }

  /** Everything read once by one worker, which crashes. */
  lemma {:induction false} AllRead(max: nat, wait: real, workers: nat, n: nat) returns (c: Clocked)
    requires workers >= 1
    ensures Reachable(max, wait, workers, c) && Backlog(c, wait, 0, n, n, 0) && c.s.workers == Resting(workers)
  {
    var full := Publishing(max, wait, workers, n);
    var step := Read(0, n);
    var mid := Clocked(Next(max, full.s, step), Delivered(full, step), full.now);
    ReachMove(max, wait, workers, full, step, mid);
    RangeHas(0, n);
    c := Clocked(Next(max, mid.s, Crash(0)), mid.last, mid.now);
    ReachMove(max, wait, workers, mid, Crash(0), c);
    assert c.s.workers == Resting(workers);
  }

  /** Any number of deliveries, given a backlog of a scan's worth for each doubling and one more. */
  lemma {:induction false} AnyNumber(max: nat, wait: real, workers: nat, n: nat) returns (c: Clocked, id: nat)
    requires wait > 0.0 && workers >= 2
    ensures Reachable(max, wait, workers, c)
    ensures id < |c.s.group.times| && c.s.group.times[id] == n + 1
  {
    var size := (Doubled(n) + 1) * SCAN;
    var read := AllRead(max, wait, workers, size);
    var due := Wait(max, wait, workers, read, 0, size, size, 0);
    var b: nat;
    c, id, b := Sweeps(max, wait, workers, due, 0, size, 1, n);
  }

  /** No run with this many workers, whatever the backlog, delivers an entry more than `limit` times. */
  ghost predicate NeverMore(max: nat, wait: real, workers: nat, limit: nat) {
    forall c: Clocked, id: nat ::
      Reachable(max, wait, workers, c) && id < |c.s.group.times| ==> c.s.group.times[id] <= limit
  }

  /** With the idle time honoured there is a delivery limit for every backlog if and only if there is one worker, and
      then the documented one will do. */
  lemma {:induction false} LimitIffAlone(max: nat, wait: real, workers: nat)
    requires max >= 1 && wait > 0.0 && workers >= 1
    ensures (exists limit: nat :: NeverMore(max, wait, workers, limit)) <==> workers == 1
    ensures workers == 1 ==> NeverMore(max, wait, workers, max + 1)
  {
    if workers == 1 {
      forall c: Clocked, id: nat | Reachable(max, wait, workers, c) && id < |c.s.group.times|
        ensures c.s.group.times[id] <= max + 1
      {
        var steps: seq<Step>, states: seq<Clocked> :|
          IsClockedRun(max, wait, workers, steps, states) && states[|steps|] == c;
        LoneWorkerLimit(max, wait, steps, states, |steps|, id);
      }
      assert NeverMore(max, wait, workers, max + 1);
    } else {
      forall limit: nat ensures !NeverMore(max, wait, workers, limit) {
        var c, id := AnyNumber(max, wait, workers, limit);
      }
    }
  }
}
