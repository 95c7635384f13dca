/** How often one entry can be delivered. The poison check and the claim are two commands, so each worker can
    add one delivery after the limit is reached. */
module Redelivery {
  import opened Common
  import opened Stream
  import opened Protocol

  /** The worker has checked the pending list, found the entry within its limit, and not claimed yet. */
  predicate MayClaim(me: Worker, id: nat) {
    me.phase.Scanned? && id !in me.phase.poison && me.owes != Some(id)
  }

  function Claimants(workers: seq<Worker>, id: nat): (n: nat)
    ensures n <= |workers|
  {
    if workers == [] then 0
    else Claimants(workers[..|workers| - 1], id) + (if MayClaim(workers[|workers| - 1], id) then 1 else 0)
  }

  lemma {:induction false} ClaimantsSet(workers: seq<Worker>, w: nat, me: Worker, id: nat)
    requires w < |workers|
    ensures Claimants(workers[w := me], id) + (if MayClaim(workers[w], id) then 1 else 0) ==
            Claimants(workers, id) + (if MayClaim(me, id) then 1 else 0)
  {
    var front := workers[..|workers| - 1];
    if w == |workers| - 1 {
      assert workers[w := me][..|workers| - 1] == front;
    } else {
      assert workers[w := me][..|workers| - 1] == front[w := me];
      ClaimantsSet(front, w, me, id);
    }
  }

  lemma {:induction false} SomeIdle(workers: seq<Worker>, w: nat, id: nat)
    requires w < |workers| && !MayClaim(workers[w], id)
    ensures Claimants(workers, id) < |workers|
  {
    if w < |workers| - 1 {
      SomeIdle(workers[..|workers| - 1], w, id);
    }
  }

  /** Deliveries so far, plus those already certain to be allowed. */
  function Potential(s: System, id: nat): nat
    requires id < |s.group.times|
  {
    s.group.times[id] + (if id in s.group.pending then Claimants(s.workers, id) else 0)
  }

  ghost predicate Bounded(max: nat, s: System) {
    s.group.Valid() && forall id: nat :: id < s.group.delivered ==> Potential(s, id) <= max + |s.workers|
  }

  /** A worker that scans finds no more than `room` entries pending. */
  predicate Fits(room: nat, s: System, step: Step) {
    step.Scan? ==> |s.group.pending| <= room
  }

  lemma ReadBounded(max: nat, s: System, w: nat, n: nat)
    requires max >= 1 && Bounded(max, s) && Enabled(s, Read(w, n))
    ensures Bounded(max, Next(max, s, Read(w, n)))
  {
    var s' := Next(max, s, Read(w, n));
    forall id: nat | id < s'.group.delivered ensures Potential(s', id) <= max + |s'.workers| {
      ClaimantsSet(s.workers, w, s'.workers[w], id);
      if id < s.group.delivered {
        assert Potential(s, id) <= max + |s.workers|;
        assert id in s'.group.pending ==> id in s.group.pending;
      } else {
        SomeIdle(s'.workers, w, id);
      }
    }
  }

  lemma ScanSeesAll(s: System)
    requires s.group.Valid() && |s.group.pending| <= SCAN
    ensures forall id: nat :: id in s.group.pending ==> id in XPendingRange(s.group, SCAN)
  {
    assert (set x | x in s.group.pending && x < s.group.delivered) == s.group.pending;
    LowestIsAll(s.group.pending, s.group.delivered, SCAN);
  }

  lemma ScanBounded(max: nat, s: System, w: nat)
    requires Bounded(max, s) && Enabled(s, Scan(w)) && Fits(SCAN, s, Scan(w))
    ensures Bounded(max, Next(max, s, Scan(w)))
  {
    var s' := Next(max, s, Scan(w));
    ScanSeesAll(s);
    forall id: nat | id < s'.group.delivered ensures Potential(s', id) <= max + |s'.workers| {
      ClaimantsSet(s.workers, w, s'.workers[w], id);
      assert Potential(s, id) <= max + |s.workers|;
    }
  }

  lemma ClaimBounded(max: nat, s: System, w: nat, idle: set<nat>)
    requires Bounded(max, s) && Enabled(s, Claim(w, idle))
    ensures Bounded(max, Next(max, s, Claim(w, idle)))
  {
    var s' := Next(max, s, Claim(w, idle));
    forall id: nat | id < s'.group.delivered ensures Potential(s', id) <= max + |s'.workers| {
      ClaimantsSet(s.workers, w, s'.workers[w], id);
      assert Potential(s, id) <= max + |s.workers|;
    }
  }

  /** Any step that delivers nothing and lets no worker claim more than before. */
  lemma QuietBounded(max: nat, s: System, s': System, w: nat)
    requires Bounded(max, s) && s'.group.Valid() && w < |s.workers| == |s'.workers|
    requires s'.group.times == s.group.times && s'.group.pending <= s.group.pending
    requires s'.workers == s.workers[w := s'.workers[w]]
    requires forall id: nat :: id in s'.group.pending && MayClaim(s'.workers[w], id) ==> MayClaim(s.workers[w], id)
    ensures Bounded(max, s')
  {
    forall id: nat | id < s'.group.delivered ensures Potential(s', id) <= max + |s'.workers| {
      ClaimantsSet(s.workers, w, s'.workers[w], id);
      assert Potential(s, id) <= max + |s.workers|;
    }
  }

  lemma StepBounded(max: nat, s: System, step: Step)
    requires max >= 1 && Bounded(max, s) && Enabled(s, step) && Fits(SCAN, s, step)
    ensures Bounded(max, Next(max, s, step))
  {
    match step
    case Publish(_) =>
      forall id: nat | id < s.group.delivered ensures Potential(Next(max, s, step), id) <= max + |s.workers| {
        assert Potential(s, id) <= max + |s.workers|;
      }
    case Read(w, n) => ReadBounded(max, s, w, n);
    case Scan(w) => ScanBounded(max, s, w);
    case Claim(w, idle) => ClaimBounded(max, s, w, idle);
    case _ => QuietBounded(max, s, Next(max, s, step), step.w);
  }

  /** A run in which no scan meets more than `room` pending entries. */
  ghost predicate IsFittingRun(max: nat, workers: nat, room: nat, steps: seq<Step>, states: seq<System>) {
    IsRun(max, workers, steps, states) && forall k :: 0 <= k < |steps| ==> Fits(room, states[k], steps[k])
  }

  lemma {:induction false} RunBounded(max: nat, workers: nat, room: nat, steps: seq<Step>, states: seq<System>, i: nat)
    requires max >= 1 && room <= SCAN && IsFittingRun(max, workers, room, steps, states) && i < |states|
    ensures Bounded(max, states[i]) && |states[i].workers| == workers
  {
    if i > 0 {
      RunBounded(max, workers, room, steps, states, i - 1);
      StepBounded(max, states[i - 1], steps[i - 1]);
    }
  }

  // ---- All deliveries of a run ----

  function Sum(ts: seq<nat>): nat {
    if ts == [] then 0 else Sum(ts[..|ts| - 1]) + ts[|ts| - 1]
  }

  lemma SumAtMost(ts: seq<nat>, b: nat)
    requires forall i :: 0 <= i < |ts| ==> ts[i] <= b
    ensures Sum(ts) <= |ts| * b
  {
    if ts != [] {
      SumAtMost(ts[..|ts| - 1], b);
      assert |ts| * b == (|ts| - 1) * b + b;
    }
  }

  lemma SumOnes(ts: seq<nat>, n: nat)
    ensures Sum(ts + seq(n, _ => 1)) == Sum(ts) + n
  {
    var all := ts + seq(n, _ => 1);
    if n == 0 {
      assert all == ts;
    } else {
      SumOnes(ts, n - 1);
      assert all[..|all| - 1] == ts + seq(n - 1, _ => 1);
    }
  }

  function Below(ids: seq<nat>, n: nat): set<nat> {
    set i | i in ids && i < n
  }

  lemma {:induction false} SumBumped(ts: seq<nat>, bumped: seq<nat>, ids: seq<nat>)
    requires |bumped| == |ts| && forall i :: 0 <= i < |ts| ==> bumped[i] == ts[i] + (if i in ids then 1 else 0)
    ensures Sum(bumped) == Sum(ts) + |Below(ids, |ts|)|
  {
    if ts == [] {
      assert Below(ids, 0) == {};
    } else {
      var k := |ts| - 1;
      SumBumped(ts[..k], bumped[..k], ids);
      if k in ids {
        assert Below(ids, |ts|) == Below(ids, k) + {k};
      } else {
        assert Below(ids, |ts|) == Below(ids, k);
      }
    }
  }

  /** How many entries a step hands to a worker. */
  ghost function HandedOut(s: System, step: Step): nat {
    match step
    case Read(_, n) => n
    case Claim(_, idle) => |XAutoClaim(s.group, idle, SCAN).1|
    case _ => 0
  }

  ghost function AllHandedOut(steps: seq<Step>, states: seq<System>): nat
    requires |states| >= |steps|
  {
    if steps == [] then 0
    else
      var k := |steps| - 1;
      AllHandedOut(steps[..k], states[..k]) + HandedOut(states[k], steps[k])
  }

  lemma StepHandsOut(max: nat, s: System, step: Step)
    requires s.group.Valid() && Enabled(s, step)
    ensures Sum(Next(max, s, step).group.times) == Sum(s.group.times) + HandedOut(s, step)
  {
    match step
    case Read(_, n) => SumOnes(s.group.times, n);
    case Claim(_, idle) =>
      var (g, ids) := XAutoClaim(s.group, idle, SCAN);
      SumBumped(s.group.times, g.times, ids);
      LowestDistinct(s.group.pending * idle, s.group.delivered, SCAN);
      DistinctSize(ids);
      assert Below(ids, |s.group.times|) == ToSet(ids);
    case _ =>
  }

  lemma {:induction false} RunHandsOut(max: nat, workers: nat, steps: seq<Step>, states: seq<System>, i: nat)
    requires IsRun(max, workers, steps, states) && i <= |steps|
    ensures AllHandedOut(steps[..i], states[..i]) == Sum(states[i].group.times)
  {
    if i > 0 {
      RunHandsOut(max, workers, steps, states, i - 1);
      StepHandsOut(max, states[i - 1], steps[i - 1]);
      assert steps[..i][..i - 1] == steps[..i - 1] && states[..i][..i - 1] == states[..i - 1];
    } else {
      assert steps[..0] == [];
    }
  }

  /** However often workers crash, no entry is delivered more than `max + workers` times, so the deliveries
      of a whole run number at most that for each published entry: poison cannot be retried forever. */
  lemma {:induction false} DeliveriesBounded(max: nat, workers: nat, room: nat, steps: seq<Step>, states: seq<System>)
    requires max >= 1 && room <= SCAN && IsFittingRun(max, workers, room, steps, states)
    ensures var g := states[|steps|].group;
            && (forall id: nat :: id < |g.times| ==> g.times[id] <= max + workers)
            && AllHandedOut(steps, states[..|steps|]) <= |g.log| * (max + workers)
  {
    RunBounded(max, workers, room, steps, states, |steps|);
    BoundedTimes(max, workers, states[|steps|]);
    AllIsSum(max, workers, steps, states);
  }

  lemma {:induction false} AllIsSum(max: nat, workers: nat, steps: seq<Step>, states: seq<System>)
    requires IsRun(max, workers, steps, states)
    ensures AllHandedOut(steps, states[..|steps|]) == Sum(states[|steps|].group.times)
  {
    RunHandsOut(max, workers, steps, states, |steps|);
    assert steps[..|steps|] == steps;
  }

  lemma BoundedTimes(max: nat, workers: nat, s: System)
    requires Bounded(max, s) && |s.workers| == workers
    ensures forall id: nat :: id < |s.group.times| ==> s.group.times[id] <= max + workers
    ensures Sum(s.group.times) <= |s.group.log| * (max + workers)
  {
    forall id: nat | id < |s.group.times| ensures s.group.times[id] <= max + workers {
      assert Potential(s, id) <= max + |s.workers|;
    }
    SumAtMost(s.group.times, max + workers);
    MoreTimes(|s.group.times|, |s.group.log|, max + workers);
  }

  lemma MoreTimes(a: nat, b: nat, c: nat)
    requires a <= b
    ensures a * c <= b * c
  {
  }

  // ---- The bound is exact ----

  ghost predicate Reachable(max: nat, workers: nat, room: nat, s: System) {
    exists steps: seq<Step>, states: seq<System> ::
      IsFittingRun(max, workers, room, steps, states) && states[|steps|] == s
  }

  lemma ReachStart(max: nat, workers: nat, room: nat)
    ensures Reachable(max, workers, room, Start(workers))
  {
    var steps: seq<Step>, states := [], [Start(workers)];
    assert IsFittingRun(max, workers, room, steps, states) && states[|steps|] == Start(workers);
  }

  lemma ReachStep(max: nat, workers: nat, room: nat, s: System, step: Step)
    requires Reachable(max, workers, room, s) && s.group.Valid() && Enabled(s, step) && Fits(room, s, step)
    ensures Reachable(max, workers, room, Next(max, s, step))
  {
    var steps: seq<Step>, states: seq<System> :|
      IsFittingRun(max, workers, room, steps, states) && states[|steps|] == s;
    var steps', states' := steps + [step], states + [Next(max, s, step)];
    forall i | 0 <= i < |steps'|
      ensures states'[i].group.Valid() && Enabled(states'[i], steps'[i])
      ensures states'[i + 1] == Next(max, states'[i], steps'[i]) && Fits(room, states'[i], steps'[i])
    {
      if i < |steps| {
        assert states'[i] == states[i] && steps'[i] == steps[i] && states'[i + 1] == states[i + 1];
      }
    }
    assert IsFittingRun(max, workers, room, steps', states') && states'[|steps'|] == Next(max, s, step);
  }

  /** One entry, delivered `t` times and pending, with the workers in the given states. */
  function OneEntry(t: nat, workers: seq<Worker>): System {
    System(Group([NotEvent], 1, {0}, [t], []), map[], {}, workers)
  }

  function Resting(workers: nat): seq<Worker> { seq(workers, _ => REST) }

  const SCANNED := Worker(Scanned({}), None)

  lemma ScanOne(max: nat, room: nat, t: nat, workers: seq<Worker>, w: nat)
    requires room >= 1 && t <= max && w < |workers| && workers[w] == REST
    ensures var s := OneEntry(t, workers);
            && s.group.Valid() && Enabled(s, Scan(w)) && Fits(room, s, Scan(w))
            && Next(max, s, Scan(w)) == OneEntry(t, workers[w := SCANNED])
  {
    var s := OneEntry(t, workers);
    assert Next(max, s, Scan(w)).workers[w].phase.poison == {};
  }

  lemma ClaimOne(max: nat, room: nat, t: nat, workers: seq<Worker>, w: nat)
    requires w < |workers| && workers[w] == SCANNED
    ensures var s := OneEntry(t, workers);
            && s.group.Valid() && Enabled(s, Claim(w, {0})) && Fits(room, s, Claim(w, {0}))
            && Next(max, s, Claim(w, {0})) == OneEntry(t + 1, workers[w := Worker(Decoding([0], []), None)])
  {
    var s := OneEntry(t, workers);
    assert s.group.pending * {0} == {0};
    assert Lowest({0}, 0, SCAN) == [] && Lowest({0}, 1, SCAN) == [0];
    assert XAutoClaim(s.group, {0}, SCAN).0.times == [t + 1];
  }

  lemma CrashOne(max: nat, workers: nat, room: nat, t: nat)
    requires workers >= 1
    requires Reachable(max, workers, room, OneEntry(t, Resting(workers)[0 := Worker(Decoding([0], []), None)]))
    ensures Reachable(max, workers, room, OneEntry(t, Resting(workers)))
  {
    var s := OneEntry(t, Resting(workers)[0 := Worker(Decoding([0], []), None)]);
    ReachStep(max, workers, room, s, Crash(0));
    assert Next(max, s, Crash(0)).workers == Resting(workers);
  }

  lemma {:induction false} ReachFirst(max: nat, workers: nat, room: nat)
    requires workers >= 1
    ensures Reachable(max, workers, room, OneEntry(1, Resting(workers)[0 := Worker(Decoding([0], []), None)]))
  {
    ReachPublished(max, workers, room);
    var s1 := Start(workers).(group := Group([NotEvent], 0, {}, [], []));
    FirstRead(s1.group);
    ReachStep(max, workers, room, s1, Read(0, 1));
  }

  lemma {:induction false} ReachPublished(max: nat, workers: nat, room: nat)
    ensures Reachable(max, workers, room, Start(workers).(group := Group([NotEvent], 0, {}, [], [])))
  {
    ReachStart(max, workers, room);
    ReachStep(max, workers, room, Start(workers), Publish(NotEvent));
    assert [] + [NotEvent] == [NotEvent];
  }

  lemma {:induction false} FirstRead(g: Group)
    requires g == Group([NotEvent], 0, {}, [], [])
    ensures XReadGroup(g, 1) == (Group([NotEvent], 1, {0}, [1], []), [0])
  {
    assert Range(0, 1) == [0] && ToSet([0]) == {0};
    assert XReadGroup(g, 1).0.times == [1] && XReadGroup(g, 1).0.pending == {0};
  }

  /** Take worker 0 through one step that leaves `OneEntry` in the given shape. */
  lemma ReachOne(max: nat, workers: nat, room: nat, t: nat, before: seq<Worker>, step: Step, t': nat, now: seq<Worker>)
    requires Reachable(max, workers, room, OneEntry(t, before))
    requires Enabled(OneEntry(t, before), step) && Fits(room, OneEntry(t, before), step)
    requires Next(max, OneEntry(t, before), step) == OneEntry(t', now)
    ensures Reachable(max, workers, room, OneEntry(t', now))
  {
    ReachStep(max, workers, room, OneEntry(t, before), step);
  }

  lemma RetryOne(max: nat, workers: nat, room: nat, t: nat)
    requires workers >= 1 && room >= 1 && t <= max && Reachable(max, workers, room, OneEntry(t, Resting(workers)))
    ensures Reachable(max, workers, room, OneEntry(t + 1, Resting(workers)))
  {
    var rest := Resting(workers);
    var one, two := rest[0 := SCANNED], rest[0 := Worker(Decoding([0], []), None)];
    ScanOne(max, room, t, rest, 0);
    ReachOne(max, workers, room, t, rest, Scan(0), t, one);
    ClaimOne(max, room, t, one, 0);
    assert one[0 := Worker(Decoding([0], []), None)] == two;
    ReachOne(max, workers, room, t, one, Claim(0, {0}), t + 1, two);
    CrashOne(max, workers, room, t + 1);
  }

  /** Workers that keep crashing take the entry to its limit. */
  lemma {:induction false} ReachLimit(max: nat, workers: nat, room: nat, t: nat)
    requires max >= 1 && workers >= 1 && room >= 1 && 1 <= t <= max
    ensures Reachable(max, workers, room, OneEntry(t, Resting(workers)))
  {
    if t == 1 {
      ReachFirst(max, workers, room);
      CrashOne(max, workers, room, 1);
    } else {
      ReachLimit(max, workers, room, t - 1);
      RetryOne(max, workers, room, t - 1);
    }
  }

  /** The first `j` workers have scanned. */
  function SomeScanned(workers: nat, j: nat): seq<Worker> {
    seq(workers, i requires 0 <= i => if i < j then SCANNED else REST)
  }

  lemma {:induction false} ReachScanned(max: nat, workers: nat, room: nat, j: nat)
    requires max >= 1 && workers >= 1 && room >= 1 && j <= workers
    ensures Reachable(max, workers, room, OneEntry(max, SomeScanned(workers, j)))
  {
    if j == 0 {
      ReachLimit(max, workers, room, max);
      assert SomeScanned(workers, 0) == Resting(workers);
    } else {
      ReachScanned(max, workers, room, j - 1);
      var before := SomeScanned(workers, j - 1);
      ScanOne(max, room, max, before, j - 1);
      var after := before[j - 1 := SCANNED];
      ReachOne(max, workers, room, max, before, Scan(j - 1), max, after);
      assert after == SomeScanned(workers, j);
    }
  }

  /** The first `j` workers have claimed, the others have scanned. */
  function SomeClaimed(workers: nat, j: nat): seq<Worker> {
    seq(workers, i requires 0 <= i => if i < j then Worker(Decoding([0], []), None) else SCANNED)
  }

  /** All the workers check the entry at its limit, and then each claims it. */
  lemma {:induction false} BoundAttained(max: nat, workers: nat, room: nat, j: nat)
    requires max >= 1 && workers >= 1 && room >= 1 && j <= workers
    ensures Reachable(max, workers, room, OneEntry(max + j, SomeClaimed(workers, j)))
  {
    if j == 0 {
      ReachScanned(max, workers, room, workers);
      assert SomeScanned(workers, workers) == SomeClaimed(workers, 0);
    } else {
      BoundAttained(max, workers, room, j - 1);
      var before := SomeClaimed(workers, j - 1);
      ClaimOne(max, room, max + j - 1, before, j - 1);
      var after := before[j - 1 := Worker(Decoding([0], []), None)];
      ReachOne(max, workers, room, max + j - 1, before, Claim(j - 1, {0}), max + j, after);
      assert after == SomeClaimed(workers, j);
    }
  }

  /** No run whose scans meet at most `room` pending entries delivers an entry more than `limit` times. */
  ghost predicate NeverMore(max: nat, workers: nat, room: nat, limit: nat) {
    forall s: System, id: nat ::
      Reachable(max, workers, room, s) && id < |s.group.times| ==> s.group.times[id] <= limit
  }

  /** With at least one worker and scans that see everything pending, `max + workers` is a bound and no smaller
      number is: an entry is never delivered more than `max + 1` times exactly when there is a single worker. */
  lemma ExactBound(max: nat, workers: nat, room: nat, limit: nat)
    requires max >= 1 && workers >= 1 && 1 <= room <= SCAN
    ensures NeverMore(max, workers, room, limit) <==> limit >= max + workers
    ensures NeverMore(max, workers, room, max + 1) <==> workers == 1
  {
    forall s: System, id: nat | Reachable(max, workers, room, s) && id < |s.group.times|
      ensures s.group.times[id] <= max + workers
    {
      var steps: seq<Step>, states: seq<System> :|
        IsFittingRun(max, workers, room, steps, states) && states[|steps|] == s;
      DeliveriesBounded(max, workers, room, steps, states);
    }
    BoundAttained(max, workers, room, workers);
    var s := OneEntry(max + workers, SomeClaimed(workers, workers));
    assert s.group.times[0] == max + workers;
  }
}
