/** At-least-once for alerts: what fusing an acknowledged entry's event decided is in the tables. */
module Outcomes {
  import opened Common
  import opened Fusion
  import opened FusionRuns
  import opened Store
  import opened Stream
  import opened Pipeline
  import opened Client
  import opened ClientSteps

  /** What the `k`-th step of a drive decides. */
  function Decided(cfg: Config, s: State, t: Tables, ticks: seq<Tick>, k: nat): seq<Emission>
    requires cfg.Valid() && k < |ticks|
  {
    Step(cfg, Drive(cfg, s, t, ticks[..k]).0, ticks[k]).1
  }

  lemma {:induction false} DriveWrites(cfg: Config, s: State, t: Tables, ticks: seq<Tick>, k: nat)
    requires cfg.Valid() && k < |ticks|
    ensures AllWritten(Drive(cfg, s, t, ticks).1, Decided(cfg, s, t, ticks, k))
  {
    var front, last := ticks[..|ticks| - 1], |ticks| - 1;
    var before, out := Drive(cfg, s, t, front).1, Decided(cfg, s, t, ticks, last);
    AppliedWrites(before, out);
    assert Drive(cfg, s, t, ticks).1 == Applied(before, out);
    if k < last {
      DriveWrites(cfg, s, t, front, k);
      assert front[..k] == ticks[..k];
      WrittenStays(before, Applied(before, out), Decided(cfg, s, t, front, k));
    }
  }

  // ---- From entries to steps ----

  lemma {:induction false} ValidateKeeps(g: Group, ids: seq<nat>, id: nat)
    requires g.Valid() && id in ids && id < |g.log| && g.log[id].Good?
    ensures id in ValidateAll(g, ids).1
  {
    var front := ids[..|ids| - 1];
    assert ids == front + [ids[|ids| - 1]];
    ValidateFrame(g, front);
    if id in front {
      ValidateKeeps(g, front, id);
    }
  }

  function ItemOf(log: seq<Body>, id: nat, outputs: map<nat, seq<Result>>): Item
    requires id < |log| && log[id].Good?
  {
    Item(log[id].event, if id in outputs then outputs[id] else [])
  }

  lemma {:induction false} ItemAmong(log: seq<Body>, ids: seq<nat>, outputs: map<nat, seq<Result>>, id: nat)
    requires id in ids && id < |log| && log[id].Good?
    ensures ItemOf(log, id, outputs) in ItemsAt(log, ids, outputs)
  {
    var front := ids[..|ids| - 1];
    assert ids == front + [ids[|ids| - 1]];
    if id in front {
      ItemAmong(log, front, outputs, id);
    }
  }

  lemma {:induction false} TickAt(items: seq<Item>, k: nat)
    requires k < |items|
    ensures |TicksOf(items)| == |items| && TicksOf(items)[k] == items[k].Tick()
  {
    TickCount(items[..|items| - 1]);
    if k < |items| - 1 {
      TickAt(items[..|items| - 1], k);
    }
  }

  lemma {:induction false} TickCount(items: seq<Item>)
    ensures |TicksOf(items)| == |items|
  {
    if items != [] {
      TickCount(items[..|items| - 1]);
    }
  }

  /** The valid entries are worked on, each as its event and what the detectors produced for it. */
  lemma {:induction false} WorkHolds(g: Group, batch: seq<nat>, outputs: map<nat, seq<Result>>, id: nat)
    requires g.Valid() && id in batch && id < |g.log| && g.log[id].Good?
    ensures ItemOf(g.log, id, outputs) in Work(g, batch, outputs)
  {
    var (h, good) := ValidateAll(g, batch);
    ValidateFrame(g, batch);
    ValidateKeeps(g, batch, id);
    ByEpochSorts(h.log, good);
    SameElements(ByEpoch(h.log, good), good);
    assert id in ToSet(good);
    ItemAmong(h.log, ByEpoch(h.log, good), outputs, id);
  }

  lemma {:induction false} StepIsWritten(cfg: Config, s: State, t: Tables, items: seq<Item>, k: nat,
                                         s': State, t': Tables)
    requires cfg.Valid() && Handled(cfg, s, t, items, [], s', t', true) && k < |items|
    ensures k < |TicksOf(items)| && TicksOf(items)[k] == items[k].Tick()
    ensures AllWritten(t', Decided(cfg, s, t, TicksOf(items), k))
  {
    TickAt(items, k);
    assert TicksOf(items) + [] == TicksOf(items);
    DriveWrites(cfg, s, t, TicksOf(items), k);
  }

  /** Every valid entry of a batch has a step of its own in the turn, made of its event and what the detectors
      produced for it, and everything that step decided is in the tables when the turn acknowledges the entry. */
  lemma {:induction false} AckedIsApplied(cfg: Config, s: State, t: Tables, g: Group, batch: seq<nat>,
                                          outputs: map<nat, seq<Result>>, s': State, t': Tables, id: nat)
    returns (k: nat)
    requires cfg.Valid() && g.Valid() && Applies(cfg, s, t, g, batch, outputs, s', t')
    requires id in batch && id < |g.log| && g.log[id].Good?
    ensures var ticks := TicksOf(Work(g, batch, outputs));
            && k < |ticks| && ticks[k] == ItemOf(g.log, id, outputs).Tick()
            && AllWritten(t', Decided(cfg, s, t, ticks, k))
  {
    WorkHolds(g, batch, outputs, id);
    var items := Work(g, batch, outputs);
    k :| 0 <= k < |items| && items[k] == ItemOf(g.log, id, outputs);
    StepIsWritten(cfg, s, t, items, k, s', t');
  }

  // ---- A batch is a run in time order ----

  /** Results carry the time of their event. */
  ghost predicate Timely(log: seq<Body>, outputs: map<nat, seq<Result>>, ids: seq<nat>) {
    forall id, r :: id in ids && id < |log| && log[id].Good? && id in outputs && r in outputs[id] ==>
      r.ts == log[id].event.epoch
  }

  /** Every step is that of an entry. */
  lemma {:induction false} StepFrom(log: seq<Body>, ids: seq<nat>, outputs: map<nat, seq<Result>>, k: nat)
    returns (i: nat)
    requires k < |TicksOf(ItemsAt(log, ids, outputs))|
    ensures i < |ids| && ids[i] < |log| && log[ids[i]].Good?
    ensures TicksOf(ItemsAt(log, ids, outputs))[k] == ItemOf(log, ids[i], outputs).Tick()
  {
    var front, id := ids[..|ids| - 1], ids[|ids| - 1];
    assert ids == front + [id];
    OneMoreItemAt(log, front, id, outputs);
    var before := TicksOf(ItemsAt(log, front, outputs));
    if k < |before| {
      i := StepFrom(log, front, outputs, k);
    } else {
      i := |ids| - 1;
    }
  }

  lemma {:induction false} OneMoreItemAt(log: seq<Body>, ids: seq<nat>, id: nat, outputs: map<nat, seq<Result>>)
    ensures TicksOf(ItemsAt(log, ids + [id], outputs)) ==
            TicksOf(ItemsAt(log, ids, outputs)) +
            (if id < |log| && log[id].Good? then [ItemOf(log, id, outputs).Tick()] else [])
  {
    assert (ids + [id])[..|ids|] == ids;
    var items := ItemsAt(log, ids, outputs);
    if id < |log| && log[id].Good? {
      assert (items + [ItemOf(log, id, outputs)])[..|items|] == items;
    } else {
      assert items + [] == items && TicksOf(items) + [] == TicksOf(items);
    }
  }

  lemma {:induction false} StepsNoLater(log: seq<Body>, ids: seq<nat>, outputs: map<nat, seq<Result>>, last: nat)
    requires last < |log| && log[last].Good? && forall i :: 0 <= i < |ids| ==> NoLater(log, ids[i], last)
    ensures forall k :: 0 <= k < |TicksOf(ItemsAt(log, ids, outputs))| ==>
              TicksOf(ItemsAt(log, ids, outputs))[k].now <= log[last].event.epoch
  {
    var ticks := TicksOf(ItemsAt(log, ids, outputs));
    forall k | 0 <= k < |ticks| ensures ticks[k].now <= log[last].event.epoch {
      var i := StepFrom(log, ids, outputs, k);
    }
  }

  lemma {:induction false} ItemsInOrder(log: seq<Body>, ids: seq<nat>, outputs: map<nat, seq<Result>>)
    requires Timely(log, outputs, ids) && forall i, j :: 0 <= i < j < |ids| ==> NoLater(log, ids[i], ids[j])
    ensures InOrder(TicksOf(ItemsAt(log, ids, outputs)))
  {
    if ids != [] {
      var front, id := ids[..|ids| - 1], ids[|ids| - 1];
      assert ids == front + [id] && id in ids && forall x :: x in front ==> x in ids;
      ItemsInOrder(log, front, outputs);
      var ticks := TicksOf(ItemsAt(log, front, outputs));
      OneMoreItemAt(log, front, id, outputs);
      if id < |log| && log[id].Good? {
        StepsNoLater(log, front, outputs, id);
        OneMoreInOrder(ticks, ItemOf(log, id, outputs).Tick());
      } else {
        assert ticks + [] == ticks;
      }
    }
  }

  lemma {:induction false} OneMoreInOrder(ticks: seq<Tick>, t: Tick)
    requires InOrder(ticks) && forall r :: r in t.results ==> r.ts == t.now
    requires forall k :: 0 <= k < |ticks| ==> ticks[k].now <= t.now
    ensures InOrder(ticks + [t])
  {
  }

  /** What a turn feeds to fusion is a run in time order, as the theorems on verdicts ask. */
  lemma {:induction false} WorkInOrder(g: Group, batch: seq<nat>, outputs: map<nat, seq<Result>>)
    requires g.Valid() && Timely(g.log, outputs, batch)
    ensures InOrder(TicksOf(Work(g, batch, outputs)))
  {
    var (h, good) := ValidateAll(g, batch);
    ValidateFrame(g, batch);
    ValidatedAmong(g, batch);
    ByEpochSorts(h.log, good);
    SameElements(ByEpoch(h.log, good), good);
    assert forall id :: id in ByEpoch(h.log, good) ==> id in ToSet(good);
    ItemsInOrder(h.log, ByEpoch(h.log, good), outputs);
  }

  lemma {:induction false} ValidatedAmong(g: Group, ids: seq<nat>)
    ensures forall id :: id in ValidateAll(g, ids).1 ==> id in ids
  {
    if ids != [] {
      ValidatedAmong(g, ids[..|ids| - 1]);
    }
  }
}
