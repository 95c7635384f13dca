/** The stream client and the worker loop as the code runs them: whole batches decoded, validated, persisted
    and acknowledged in one go. Each is a path of the interleaved protocol, so what every run of the
    protocol keeps, the loop keeps. */
module Client {
  import opened Common
  import opened Fusion
  import opened Store
  import opened Pipeline
  import opened Stream
  import Protocol

  /** `dead_letter`: copy to the DLQ, then acknowledge. */
  function DeadLettered(g: Group, id: nat, reason: Reason): Group {
    XAck(DlqAdd(g, id, reason), [id])
  }

  /** `_decode`: entries without a JSON payload are dead-lettered, the others kept. */
  function DecodeAll(g: Group, ids: seq<nat>): (Group, seq<nat>) {
    if ids == [] then (g, [])
    else
      var ((g', kept), id) := (DecodeAll(g, ids[..|ids| - 1]), ids[|ids| - 1]);
      match BodyOf(g', id)
      case NoPayload => (DeadLettered(g', id, MissingField), kept)
      case NotJson => (DeadLettered(g', id, BadJson), kept)
      case _ => (g', kept + [id])
  }

  /** The worker's validation loop: payloads that are not events are dead-lettered. */
  function ValidateAll(g: Group, ids: seq<nat>): (Group, seq<nat>) {
    if ids == [] then (g, [])
    else
      var ((g', kept), id) := (ValidateAll(g, ids[..|ids| - 1]), ids[|ids| - 1]);
      if BodyOf(g', id).NotEvent? then (DeadLettered(g', id, InvalidEvent), kept) else (g', kept + [id])
  }

  /** Entries delivered more often than the limit. */
  function PoisonIn(max: nat, g: Group, ids: seq<nat>): seq<nat> {
    if ids == [] then []
    else
      var id := ids[|ids| - 1];
      PoisonIn(max, g, ids[..|ids| - 1]) + (if id < |g.times| && g.times[id] > max then [id] else [])
  }

  function ParkAll(g: Group, ids: seq<nat>): Group {
    if ids == [] then g else DeadLettered(ParkAll(g, ids[..|ids| - 1]), ids[|ids| - 1], Poison)
  }

  /** `reclaim`: park the poison among the scanned entries, then take over what has been idle. */
  function Reclaimed(max: nat, g: Group, idle: set<nat>): (Group, seq<nat>) {
    var parked := ParkAll(g, PoisonIn(max, g, XPendingRange(g, Protocol.SCAN)));
    var (g', ids) := XAutoClaim(parked, idle, Protocol.SCAN);
    DecodeAll(g', ids)
  }

  /** As many as a batch holds, or what is left to deliver. */
  function Available(g: Group, size: nat): (n: nat)
    ensures n <= size && (g.delivered <= |g.log| ==> g.delivered + n <= |g.log|)
    ensures g.delivered <= |g.log| && n < size ==> g.delivered + n == |g.log|
  {
    if |g.log| < g.delivered then 0 else if |g.log| - g.delivered < size then |g.log| - g.delivered else size
  }

  function ReadBatch(g: Group, size: nat): (Group, seq<nat>) {
    var (g', ids) := XReadGroup(g, Available(g, size));
    DecodeAll(g', ids)
  }

  // ---- Order within a batch ----

  function EpochOf(log: seq<Body>, id: nat): real {
    if id < |log| && log[id].Good? then log[id].event.epoch else 0.0
  }

  function InsertByEpoch(log: seq<Body>, sorted: seq<nat>, id: nat): seq<nat> {
    if sorted == [] || EpochOf(log, sorted[|sorted| - 1]) <= EpochOf(log, id) then sorted + [id]
    else InsertByEpoch(log, sorted[..|sorted| - 1], id) + [sorted[|sorted| - 1]]
  }

  /** A stable sort by event time. */
  function ByEpoch(log: seq<Body>, ids: seq<nat>): seq<nat> {
    if ids == [] then [] else InsertByEpoch(log, ByEpoch(log, ids[..|ids| - 1]), ids[|ids| - 1])
  }

  ghost predicate Ordered(log: seq<Body>, ids: seq<nat>) {
    forall i, j :: 0 <= i < j < |ids| ==> EpochOf(log, ids[i]) <= EpochOf(log, ids[j])
  }

  lemma {:induction false} InsertKeeps(log: seq<Body>, sorted: seq<nat>, id: nat)
    ensures multiset(InsertByEpoch(log, sorted, id)) == multiset(sorted) + multiset{id}
  {
    if sorted != [] {
      var front := sorted[..|sorted| - 1];
      assert sorted == front + [sorted[|sorted| - 1]];
      InsertKeeps(log, front, id);
    }
  }

  lemma OrderedAppend(log: seq<Body>, ids: seq<nat>, last: nat)
    requires Ordered(log, ids) && forall i :: 0 <= i < |ids| ==> EpochOf(log, ids[i]) <= EpochOf(log, last)
    ensures Ordered(log, ids + [last])
  {
  }

  lemma {:induction false} InsertSorts(log: seq<Body>, sorted: seq<nat>, id: nat)
    requires Ordered(log, sorted)
    ensures Ordered(log, InsertByEpoch(log, sorted, id))
  {
    if sorted == [] || EpochOf(log, sorted[|sorted| - 1]) <= EpochOf(log, id) {
      OrderedAppend(log, sorted, id);
    } else {
      var front, last := sorted[..|sorted| - 1], sorted[|sorted| - 1];
      InsertSorts(log, front, id);
      InsertKeeps(log, front, id);
      var r := InsertByEpoch(log, front, id);
      forall i | 0 <= i < |r| ensures EpochOf(log, r[i]) <= EpochOf(log, last) {
        assert r[i] in multiset(r);
        assert r[i] in front || r[i] == id;
      }
      OrderedAppend(log, r, last);
    }
  }

  /** The entry, if it is an event of that time. */
  function OneAt(log: seq<Body>, id: nat, t: real): seq<nat> {
    if id < |log| && log[id].Good? && log[id].event.epoch == t then [id] else []
  }

  /** The entries that are events of one time, in order. */
  function AtTime(log: seq<Body>, ids: seq<nat>, t: real): seq<nat> {
    if ids == [] then []
    else
      var id := ids[|ids| - 1];
      AtTime(log, ids[..|ids| - 1], t) + OneAt(log, id, t)
  }

  /** Both are events, the first no later than the second. */
  predicate NoLater(log: seq<Body>, a: nat, b: nat) {
    a < |log| && b < |log| && log[a].Good? && log[b].Good? ==> log[a].event.epoch <= log[b].event.epoch
  }

  lemma {:induction false} AtTimeAppend(log: seq<Body>, ids: seq<nat>, id: nat, t: real)
    ensures AtTime(log, ids + [id], t) == AtTime(log, ids, t) + OneAt(log, id, t)
  {
    assert (ids + [id])[..|ids|] == ids;
  }

  lemma Swap(s: seq<nat>, a: seq<nat>, b: seq<nat>)
    requires a == [] || b == []
    ensures s + a + b == s + b + a
  {
    assert s + [] == s;
  }

  /** An entry inserted behind those of its own time leaves the entries of every time in order. */
  lemma {:induction false} InsertIsStable(log: seq<Body>, sorted: seq<nat>, id: nat, t: real)
    requires Ordered(log, sorted)
    ensures AtTime(log, InsertByEpoch(log, sorted, id), t) == AtTime(log, sorted + [id], t)
  {
    AtTimeAppend(log, sorted, id, t);
    if sorted != [] && EpochOf(log, sorted[|sorted| - 1]) > EpochOf(log, id) {
      var front, last := sorted[..|sorted| - 1], sorted[|sorted| - 1];
      assert sorted == front + [last];
      InsertIsStable(log, front, id, t);
      AtTimeAppend(log, front, id, t);
      AtTimeAppend(log, front, last, t);
      AtTimeAppend(log, InsertByEpoch(log, front, id), last, t);
      Swap(AtTime(log, front, t), OneAt(log, id, t), OneAt(log, last, t));
    }
  }

  lemma {:induction false} ByEpochIsOrdered(log: seq<Body>, ids: seq<nat>)
    ensures Ordered(log, ByEpoch(log, ids)) && multiset(ByEpoch(log, ids)) == multiset(ids)
  {
    if ids != [] {
      var front := ids[..|ids| - 1];
      assert ids == front + [ids[|ids| - 1]];
      ByEpochIsOrdered(log, front);
      InsertSorts(log, ByEpoch(log, front), ids[|ids| - 1]);
      InsertKeeps(log, ByEpoch(log, front), ids[|ids| - 1]);
    }
  }

  /** The order handed on is the same entries, events of earlier times first. */
  lemma {:induction false} ByEpochSorts(log: seq<Body>, ids: seq<nat>)
    ensures multiset(ByEpoch(log, ids)) == multiset(ids)
    ensures var r := ByEpoch(log, ids); forall i, j :: 0 <= i < j < |r| ==> NoLater(log, r[i], r[j])
  {
    ByEpochIsOrdered(log, ids);
    var r := ByEpoch(log, ids);
    forall i, j | 0 <= i < j < |r| ensures NoLater(log, r[i], r[j]) {
      assert EpochOf(log, r[i]) <= EpochOf(log, r[j]);
    }
  }

  /** And events of one time in the order they came. */
  lemma {:induction false} ByEpochIsStable(log: seq<Body>, ids: seq<nat>, t: real)
    ensures AtTime(log, ByEpoch(log, ids), t) == AtTime(log, ids, t)
  {
    if ids != [] {
      var front, id := ids[..|ids| - 1], ids[|ids| - 1];
      assert ids == front + [id];
      ByEpochIsStable(log, front, t);
      ByEpochIsOrdered(log, front);
      InsertIsStable(log, ByEpoch(log, front), id, t);
      AtTimeAppend(log, ByEpoch(log, front), id, t);
    }
  }

  // ---- The classes ----

  class StreamClient {
    const maxDeliveries: nat
    const batchSize: nat
    var group: Group

    constructor (maxDeliveries: nat, batchSize: nat, group: Group)
      ensures this.maxDeliveries == maxDeliveries && this.batchSize == batchSize && this.group == group
    {
      this.maxDeliveries, this.batchSize, this.group := maxDeliveries, batchSize, group;
    }

    method DeadLetter(id: nat, reason: Reason)
      modifies this
      ensures group == DeadLettered(old(group), id, reason)
    {
      group := DlqAdd(group, id, reason);
      group := XAck(group, [id]);
    }

    method Decode(ids: seq<nat>) returns (out: seq<nat>)
      modifies this
      ensures (group, out) == DecodeAll(old(group), ids)
    {
      out := [];
      for i := 0 to |ids|
        invariant (group, out) == DecodeAll(old(group), ids[..i])
      {
        assert ids[..i + 1][..i] == ids[..i];
        match BodyOf(group, ids[i]) {
          case NoPayload => DeadLetter(ids[i], MissingField);
          case NotJson => DeadLetter(ids[i], BadJson);
          case _ => out := out + [ids[i]];
        }
      }
      assert ids[..|ids|] == ids;
    }

    /** New entries for this worker. */
    method Read() returns (out: seq<nat>)
      modifies this
      ensures (group, out) == ReadBatch(old(group), batchSize)
    {
      var (g, ids) := XReadGroup(group, Available(group, batchSize));
      group := g;
      out := Decode(ids);
    }

    /** Entries another worker left pending. `idle` are those idle for long enough to be taken over. */
    method Reclaim(idle: set<nat>) returns (out: seq<nat>)
      modifies this
      ensures (group, out) == Reclaimed(maxDeliveries, old(group), idle)
    {
      var pending := XPendingRange(group, Protocol.SCAN);
      var poison := FindPoison(pending);
      for i := 0 to |poison|
        invariant group == ParkAll(old(group), poison[..i])
      {
        assert poison[..i + 1][..i] == poison[..i];
        DeadLetter(poison[i], Poison);
      }
      assert poison[..|poison|] == poison;
      var (g, ids) := XAutoClaim(group, idle, Protocol.SCAN);
      group := g;
      out := Decode(ids);
    }

    method FindPoison(pending: seq<nat>) returns (poison: seq<nat>)
      ensures poison == PoisonIn(maxDeliveries, group, pending)
    {
      poison := [];
      for i := 0 to |pending|
        invariant poison == PoisonIn(maxDeliveries, group, pending[..i])
      {
        assert pending[..i + 1][..i] == pending[..i];
        if pending[i] < |group.times| && group.times[pending[i]] > maxDeliveries {
          poison := poison + [pending[i]];
        }
      }
      assert pending[..|pending|] == pending;
    }

    method Ack(ids: seq<nat>)
      modifies this
      ensures group == XAck(old(group), ids)
    {
      if ids != [] {
        group := XAck(group, ids);
      } else {
        assert group.pending - ToSet([]) == group.pending;
      }
    }
  }

  /** What the detectors produced for each entry's event. */
  function ItemsAt(log: seq<Body>, ids: seq<nat>, outputs: map<nat, seq<Result>>): seq<Item> {
    if ids == [] then []
    else
      var id := ids[|ids| - 1];
      ItemsAt(log, ids[..|ids| - 1], outputs) +
      (if id < |log| && log[id].Good? then [Item(log[id].event, if id in outputs then outputs[id] else [])] else [])
  }

  lemma {:induction false} ItemsHoldEvents(log: seq<Body>, ids: seq<nat>, outputs: map<nat, seq<Result>>)
    ensures EventsOf(ItemsAt(log, ids, outputs)) == Protocol.EventsAt(log, ids)
  {
    if ids != [] {
      ItemsHoldEvents(log, ids[..|ids| - 1], outputs);
      var items := ItemsAt(log, ids, outputs);
      assert items != [] ==> items[..|items| - 1] + [items[|items| - 1]] == items;
      assert ItemsAt(log, ids[..|ids| - 1], outputs) + [] == ItemsAt(log, ids[..|ids| - 1], outputs);
      var id := ids[|ids| - 1];
      if id < |log| && log[id].Good? {
        assert items[..|items| - 1] == ItemsAt(log, ids[..|ids| - 1], outputs);
      }
    }
  }

  /** The group and the events table once a batch has been worked through. */
  function Finished(g: Group, t: map<nat, Event>, batch: seq<nat>): (Group, map<nat, Event>) {
    var (g', good) := ValidateAll(g, batch);
    (XAck(g', good), AddEvents(t, Protocol.EventsAt(g'.log, ByEpoch(g'.log, good))))
  }

  class Worker {
    const stream: StreamClient
    const runner: PipelineRunner

    constructor (stream: StreamClient, runner: PipelineRunner)
      ensures this.stream == stream && this.runner == runner
    {
      this.stream, this.runner := stream, runner;
    }

    ghost predicate Valid()
      reads this, runner, runner.fusion
    {
      runner.Valid()
    }

    /** One turn of the loop for a non-empty batch: validate, run in time order, persist, and only then
        acknowledge. */
    method ProcessBatch(batch: seq<nat>, outputs: map<nat, seq<Result>>)
      requires Valid()
      modifies stream, runner, runner.fusion, runner.db
      ensures Valid()
      ensures (stream.group, runner.db.events) == Finished(old(stream.group), old(runner.db.events), batch)
      ensures Applies(runner.fusion.cfg, old(runner.fusion.Model()), old(runner.db.Model()), old(stream.group), batch,
                      outputs, runner.fusion.Model(), runner.db.Model())
    {
      var messageIds := Validate(batch);
      var order := ByEpoch(stream.group.log, messageIds);
      HandleItems(ItemsAt(stream.group.log, order, outputs), messageIds == []);
      BatchApplied(runner.fusion.cfg, old(runner.fusion.Model()), old(runner.db.Model()), old(stream.group), batch,
                   outputs, stream.group, messageIds, runner.fusion.Model(), runner.db.Model());
      stream.Ack(messageIds);
    }

    /** Keep the entries that are events; dead-letter the others. */
    method Validate(batch: seq<nat>) returns (messageIds: seq<nat>)
      modifies stream
      ensures (stream.group, messageIds) == ValidateAll(old(stream.group), batch)
    {
      messageIds := [];
      for i := 0 to |batch|
        invariant (stream.group, messageIds) == ValidateAll(old(stream.group), batch[..i])
      {
        assert batch[..i + 1][..i] == batch[..i];
        if BodyOf(stream.group, batch[i]).NotEvent? {
          stream.DeadLetter(batch[i], InvalidEvent);
        } else {
          messageIds := messageIds + [batch[i]];
        }
      }
      assert batch[..|batch|] == batch;
    }

    /** Run what is left of the batch through the pipeline, if anything is. */
    method HandleItems(items: seq<Item>, none: bool)
      requires Valid() && (none ==> items == [])
      modifies runner, runner.fusion, runner.db
      ensures Valid()
      ensures Handled(runner.fusion.cfg, old(runner.fusion.Model()), old(runner.db.Model()), items, [],
                      runner.fusion.Model(), runner.db.Model(), true)
    {
      if none {
        HandledNothing(runner.fusion.cfg, runner.fusion.Model(), runner.db.Model());
      } else {
        runner.HandleEvents(items, [], true, false);
      }
    }

    /** One turn of the loop: new entries, or else abandoned ones. */
    method RunOnce(idle: set<nat>, outputs: map<nat, seq<Result>>) returns (busy: bool)
      requires Valid()
      modifies stream, runner, runner.fusion, runner.db
      ensures Valid()
      ensures var (g, batch) := Fetched(stream.maxDeliveries, stream.batchSize, old(stream.group), idle);
              && busy == (batch != [])
              && (stream.group, runner.db.events) == Finished(g, old(runner.db.events), batch)
              && Applies(runner.fusion.cfg, old(runner.fusion.Model()), old(runner.db.Model()), g, batch, outputs,
                         runner.fusion.Model(), runner.db.Model())
    {
      var batch := stream.Read();
      if batch == [] {
        batch := stream.Reclaim(idle);
      }
      busy := batch != [];
      if busy {
        ProcessBatch(batch, outputs);
      } else {
        assert stream.group.pending - ToSet([]) == stream.group.pending;
        HandledNothing(runner.fusion.cfg, runner.fusion.Model(), runner.db.Model());
      }
    }
  }

  function Fetched(max: nat, size: nat, g: Group, idle: set<nat>): (Group, seq<nat>) {
    var (g', batch) := ReadBatch(g, size);
    if batch != [] then (g', batch) else Reclaimed(max, g', idle)
  }

  /** What the turn does with a batch's valid entries, in the order they are run. */
  function Work(g: Group, batch: seq<nat>, outputs: map<nat, seq<Result>>): seq<Item> {
    var (h, good) := ValidateAll(g, batch);
    ItemsAt(h.log, ByEpoch(h.log, good), outputs)
  }

  /** The valid entries' events go through fusion in time order, every outcome is applied, and every event and
      detector result stored. */
  ghost predicate Applies(cfg: Config, s: State, t: Tables, g: Group, batch: seq<nat>, outputs: map<nat, seq<Result>>,
                          s': State, t': Tables)
    requires cfg.Valid()
  {
    Handled(cfg, s, t, Work(g, batch, outputs), [], s', t', true)
  }

  lemma {:induction false} BatchApplied(cfg: Config, s: State, t: Tables, g: Group, batch: seq<nat>,
                                        outputs: map<nat, seq<Result>>, h: Group, good: seq<nat>, s': State, t': Tables)
    requires cfg.Valid() && (h, good) == ValidateAll(g, batch)
    requires Handled(cfg, s, t, ItemsAt(h.log, ByEpoch(h.log, good), outputs), [], s', t', true)
    ensures Applies(cfg, s, t, g, batch, outputs, s', t')
    ensures (XAck(h, good), t'.events) == Finished(g, t.events, batch)
  {
    ItemsHoldEvents(h.log, ByEpoch(h.log, good), outputs);
  }

  lemma HandledNothing(cfg: Config, s: State, t: Tables)
    requires cfg.Valid()
    ensures Handled(cfg, s, t, [], [], s, t, true)
  {
    assert t.results + [] == t.results;
  }
}
