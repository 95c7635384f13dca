/** What a backlog beyond the scan does to the delivery limit. There is no clock here: which pending entries are
    idle for long enough to be claimed is arbitrary, and that is what makes the excess unbounded. */
module Backlog {
  import opened Common
  import opened Stream
  import opened Protocol
  import opened Redelivery

  // ---- The lowest of everything, and of one ----

  lemma {:induction false} LowestOfAll(ids: set<nat>, bound: nat, count: nat)
    requires forall x: nat :: x < bound ==> x in ids
    ensures Lowest(ids, bound, count) == Range(0, if bound < count then bound else count)
  {
    if bound > 0 {
      LowestOfAll(ids, bound - 1, count);
    }
  }

  lemma {:induction false} LowestOfNone(ids: set<nat>, bound: nat, count: nat)
    requires forall x: nat :: x < bound ==> x !in ids
    ensures Lowest(ids, bound, count) == []
  {
    if bound > 0 {
      LowestOfNone(ids, bound - 1, count);
    }
  }

  // ---- One entry too many ----

  function Below(n: nat): set<nat> { ToSet(Range(0, n)) }

  lemma BelowIs(n: nat)
    ensures |Below(n)| == n && forall x: nat :: x in Below(n) <==> x < n
  {
    DistinctSize(Range(0, n));
    forall x: nat | x < n ensures x in Below(n) {
      assert Range(0, n)[x] == x;
    }
  }

  /** Every entry delivered once, except the last one, `t` times. */
  function Times(t: nat): (ts: seq<nat>)
    ensures |ts| == SCAN + 1
  {
    seq(SCAN + 1, i => if i == SCAN then t else 1)
  }

  /** One entry more than a scan sees, all pending, the last of them delivered `t` times. */
  function Crowd(t: nat, workers: seq<Worker>): System {
    System(Group(seq(SCAN + 1, _ => NotEvent), SCAN + 1, Below(SCAN + 1), Times(t), []), map[], {}, workers)
  }

  /** The scan sees only entries delivered once, so nothing is parked. */
  lemma ScanMisses(max: nat, t: nat)
    requires max >= 1
    ensures OverLimit(max, Crowd(t, []).group) == {}
  {
    var g := Crowd(t, []).group;
    BelowIs(SCAN + 1);
    LowestOfAll(g.pending, g.delivered, SCAN);
    assert XPendingRange(g, SCAN) == Range(0, SCAN);
  }

  /** The claim takes the last entry, the only one idle. */
  lemma ClaimTakesLast(t: nat)
    ensures XAutoClaim(Crowd(t, []).group, {SCAN}, SCAN) == (Crowd(t + 1, []).group, [SCAN])
  {
    var g := Crowd(t, []).group;
    BelowIs(SCAN + 1);
    assert g.pending * {SCAN} == {SCAN};
    LowestOfNone({SCAN}, SCAN, SCAN);
    assert Lowest({SCAN}, SCAN + 1, SCAN) == [SCAN];
    assert XAutoClaim(g, {SCAN}, SCAN).0.times == Times(t + 1);
  }

  /** A scan, a claim and a crash: one more delivery, however many there were. */
  lemma AnotherDelivery(max: nat, workers: nat, room: nat, t: nat)
    requires max >= 1 && workers >= 1 && room > SCAN && Reachable(max, workers, room, Crowd(t, Resting(workers)))
    ensures Reachable(max, workers, room, Crowd(t + 1, Resting(workers)))
  {
    var rest := Resting(workers);
    var s := Crowd(t, rest);
    BelowIs(SCAN + 1);
    ScanMisses(max, t);
    ReachStep(max, workers, room, s, Scan(0));
    var scanned := Crowd(t, rest[0 := SCANNED]);
    assert Next(max, s, Scan(0)) == scanned;
    ClaimTakesLast(t);
    ReachStep(max, workers, room, scanned, Claim(0, {SCAN}));
    var claimed := Crowd(t + 1, rest[0 := Worker(Decoding([SCAN], []), None)]);
    assert Next(max, scanned, Claim(0, {SCAN})).workers == claimed.workers;
    ReachStep(max, workers, room, claimed, Crash(0));
    assert Next(max, claimed, Crash(0)).workers == rest;
  }

  function Published(n: nat, workers: nat): System {
    System(Group(seq(n, _ => NotEvent), 0, {}, [], []), map[], {}, Resting(workers))
  }

  lemma {:induction false} ReachPublished(max: nat, workers: nat, room: nat, n: nat)
    ensures Reachable(max, workers, room, Published(n, workers))
  {
    if n == 0 {
      ReachStart(max, workers, room);
      assert Published(0, workers) == Start(workers);
    } else {
      ReachPublished(max, workers, room, n - 1);
      ReachStep(max, workers, room, Published(n - 1, workers), Publish(NotEvent));
      assert Next(max, Published(n - 1, workers), Publish(NotEvent)).group.log == Published(n, workers).group.log;
    }
  }

  lemma ReadTakesAll(g: Group)
    requires g == Group(seq(SCAN + 1, _ => NotEvent), 0, {}, [], [])
    ensures XReadGroup(g, SCAN + 1) == (Crowd(1, []).group, Range(0, SCAN + 1))
  {
    assert g.pending + Below(SCAN + 1) == Below(SCAN + 1);
    assert g.times + seq(SCAN + 1, _ => 1) == Times(1);
  }

  /** All of them are read at once by a worker that crashes. */
  lemma ReachCrowd(max: nat, workers: nat, room: nat)
    requires workers >= 1
    ensures Reachable(max, workers, room, Crowd(1, Resting(workers)))
  {
    var rest, n := Resting(workers), SCAN + 1;
    var s := Published(n, workers);
    ReachPublished(max, workers, room, n);
    ReachStep(max, workers, room, s, Read(0, n));
    var (g, ids) := XReadGroup(s.group, n);
    var taken := Crowd(1, rest[0 := Worker(Decoding(ids, []), None)]);
    ReadTakesAll(s.group);
    assert Next(max, s, Read(0, n)).workers == taken.workers;
    ReachStep(max, workers, room, taken, Crash(0));
    assert Next(max, taken, Crash(0)).workers == rest;
  }

  /** With one entry more than a scan sees, the last one can be delivered any number of times. */
  lemma {:induction false} AnyNumber(max: nat, workers: nat, room: nat, t: nat)
    requires max >= 1 && workers >= 1 && room > SCAN && t >= 1
    ensures Reachable(max, workers, room, Crowd(t, Resting(workers)))
  {
    if t == 1 {
      ReachCrowd(max, workers, room);
    } else {
      AnyNumber(max, workers, room, t - 1);
      AnotherDelivery(max, workers, room, t - 1);
    }
  }

  /** The exact condition on the backlog: runs whose scans meet at most `room` pending entries have a delivery limit
      if and only if `room` entries fit the scan, and then it is the one of `ExactBound`. */
  lemma LimitIffScanFits(max: nat, workers: nat, room: nat)
    requires max >= 1 && workers >= 1 && room >= 1
    ensures (exists limit: nat :: NeverMore(max, workers, room, limit)) <==> room <= 64
    ensures room <= 64 ==> NeverMore(max, workers, room, max + workers)
  {
    if room <= SCAN {
      ExactBound(max, workers, room, max + workers);
    } else {
      forall limit: nat ensures !NeverMore(max, workers, room, limit) {
        AnyNumber(max, workers, room, limit + 1);
        var s := Crowd(limit + 1, Resting(workers));
        assert s.group.times[SCAN] == limit + 1;
      }
    }
  }
}
