/** Several workers on one consumer group, interleaved at every command they send, crashing anywhere. */
module Protocol {
  import opened Common
  import opened Store
  import opened Stream

  const SCAN := 64

  /** Where a worker is in its loop. */
  datatype Phase =
    | Idle
    | Scanned(poison: set<nat>)                       // reclaiming: these are still to be parked
    | Decoding(todo: seq<nat>, kept: seq<nat>)        // delivered to it: raw entries
    | Validating(todo: seq<nat>, kept: seq<nat>)      // decoded entries
    | Persisting(rest: seq<nat>, fused: nat, batch: seq<nat>)
      // valid events: those not yet stored, how many of these are fused, and all to acknowledge

  /** `owes` is an entry it has copied to the DLQ and is about to acknowledge. */
  datatype Worker = Worker(phase: Phase, owes: Option<nat>)

  /** `applied` are the entries whose fusion outcome some worker has written to the alert tables. */
  datatype System = System(group: Group, table: map<nat, Event>, applied: set<nat>, workers: seq<Worker>)

  datatype Step =
    | Publish(body: Body)
    | Read(w: nat, n: nat)
    | Scan(w: nat)
    | ParkPoison(w: nat, id: nat)
    | AckParked(w: nat)
    | Claim(w: nat, idle: set<nat>)
    | DecodeOne(w: nat)
    | ValidateOne(w: nat)
    | BeginPersist(w: nat, order: seq<nat>)
    | FuseNext(w: nat)
    | PersistChunk(w: nat)
    | Ack(w: nat)
    | Crash(w: nat)

  const REST := Worker(Idle, None)

  function Start(workers: nat): System {
    System(FRESH, map[], {}, seq(workers, _ => REST))
  }

  // ---- The steps ----

  function Set(s: System, w: nat, phase: Phase): System
    requires w < |s.workers|
  {
    s.(workers := s.workers[w := s.workers[w].(phase := phase)])
  }

  /** Copy an entry to the DLQ; the acknowledgement is the next command. */
  function Park(s: System, w: nat, phase: Phase, id: nat, reason: Reason): System
    requires w < |s.workers|
  {
    s.(group := DlqAdd(s.group, id, reason), workers := s.workers[w := Worker(phase, Some(id))])
  }

  /** The events of the entries, in order. */
  function EventsAt(log: seq<Body>, ids: seq<nat>): seq<Event> {
    if ids == [] then []
    else
      var id := ids[|ids| - 1];
      EventsAt(log, ids[..|ids| - 1]) + (if id < |log| && log[id].Good? then [log[id].event] else [])
  }

  /** How many of the events left make up the next chunk. */
  function ChunkOf(rest: seq<nat>): nat {
    if |rest| < CHUNK then |rest| else CHUNK
  }

  /** The worker has no acknowledgement outstanding. */
  predicate Free(s: System, w: nat) {
    w < |s.workers| && s.workers[w].owes.None?
  }

  /** Which steps can be taken next. */
  ghost predicate Enabled(s: System, step: Step) {
    match step
    case Publish(_) => true
    case Crash(w) => w < |s.workers|
    case AckParked(w) => w < |s.workers| && s.workers[w].owes.Some?
    case Read(w, n) => Free(s, w) && s.workers[w].phase.Idle? && s.group.delivered + n <= |s.group.log|
    case Scan(w) => Free(s, w) && s.workers[w].phase.Idle?
    case ParkPoison(w, id) => Free(s, w) && s.workers[w].phase.Scanned? && id in s.workers[w].phase.poison
    case Claim(w, _) => Free(s, w) && s.workers[w].phase.Scanned? && s.workers[w].phase.poison == {}
    case DecodeOne(w) => Free(s, w) && s.workers[w].phase.Decoding?
    case ValidateOne(w) => Free(s, w) && s.workers[w].phase.Validating? && s.workers[w].phase.todo != []
    case BeginPersist(w, order) =>
      && Free(s, w) && s.workers[w].phase.Validating? && s.workers[w].phase.todo == []
      && multiset(order) == multiset(s.workers[w].phase.kept)
    case FuseNext(w) =>
      Free(s, w) && s.workers[w].phase.Persisting? && s.workers[w].phase.fused < ChunkOf(s.workers[w].phase.rest)
    case PersistChunk(w) =>
      && Free(s, w) && s.workers[w].phase.Persisting? && s.workers[w].phase.rest != []
      && s.workers[w].phase.fused == ChunkOf(s.workers[w].phase.rest)
    case Ack(w) => Free(s, w) && s.workers[w].phase.Persisting? && s.workers[w].phase.rest == []
  }

  /** The scanned entries delivered more often than the limit. */
  function OverLimit(max: nat, g: Group): set<nat> {
    set id | id in XPendingRange(g, SCAN) && id < |g.times| && g.times[id] > max
  }

  ghost function Next(max: nat, s: System, step: Step): System
    requires s.group.Valid() && Enabled(s, step)
  {
    match step
    case Publish(body) => s.(group := XAdd(s.group, body))
    case Crash(w) => s.(workers := s.workers[w := REST])
    case AckParked(w) =>
      s.(group := XAck(s.group, [s.workers[w].owes.value]), workers := s.workers[w := s.workers[w].(owes := None)])
    case Read(w, n) =>
      var (g, ids) := XReadGroup(s.group, n);
      Set(s, w, Decoding(ids, [])).(group := g)
    case Scan(w) => Set(s, w, Scanned(OverLimit(max, s.group)))
    case ParkPoison(w, id) => Park(s, w, Scanned(s.workers[w].phase.poison - {id}), id, Poison)
    case Claim(w, idle) =>
      var (g, ids) := XAutoClaim(s.group, idle, SCAN);
      Set(s, w, Decoding(ids, [])).(group := g)
    case DecodeOne(w) =>
      var p := s.workers[w].phase;
      if p.todo == [] then Set(s, w, Validating(p.kept, []))
      else
        var id := p.todo[0];
        (match BodyOf(s.group, id)
         case NoPayload => Park(s, w, Decoding(p.todo[1..], p.kept), id, MissingField)
         case NotJson => Park(s, w, Decoding(p.todo[1..], p.kept), id, BadJson)
         case _ => Set(s, w, Decoding(p.todo[1..], p.kept + [id])))
    case ValidateOne(w) =>
      var p := s.workers[w].phase;
      var id := p.todo[0];
      if BodyOf(s.group, id).NotEvent? then Park(s, w, Validating(p.todo[1..], p.kept), id, InvalidEvent)
      else Set(s, w, Validating(p.todo[1..], p.kept + [id]))
    case BeginPersist(w, order) => Set(s, w, Persisting(order, 0, s.workers[w].phase.kept))
    case FuseNext(w) =>
      var p := s.workers[w].phase;
      Set(s, w, p.(fused := p.fused + 1)).(applied := s.applied + {p.rest[p.fused]})
    case PersistChunk(w) =>
      var p := s.workers[w].phase;
      var k := ChunkOf(p.rest);
      Set(s, w, Persisting(p.rest[k..], 0, p.batch)).(table := AddEvents(s.table, EventsAt(s.group.log, p.rest[..k])))
    case Ack(w) => Set(s, w, Idle).(group := XAck(s.group, s.workers[w].phase.batch))
  }

  // ---- Safety ----

  /** The entry's event is in the table and its fusion outcome in the alert tables, or a copy of the entry is in the
      DLQ. */
  ghost predicate Accounted(s: System, id: nat)
    requires id < |s.group.log|
  {
    (s.group.log[id].Good? && s.group.log[id].event.id in s.table && id in s.applied) || InDlq(s.group, id)
  }

  /** Delivered and acknowledged. */
  predicate Acked(g: Group, id: nat) {
    id < g.delivered && id !in g.pending
  }

  ghost predicate Safe(s: System) {
    s.group.Valid() && forall id: nat :: Acked(s.group, id) ==> Accounted(s, id)
  }

  ghost predicate AllDelivered(g: Group, ids: seq<nat>) {
    g.Valid() && forall id :: id in ids ==> id < g.delivered
  }

  ghost predicate Decoded(g: Group, ids: seq<nat>) {
    AllDelivered(g, ids) && forall id :: id in ids ==> g.log[id].NotEvent? || g.log[id].Good?
  }

  ghost predicate Valids(g: Group, ids: seq<nat>) {
    AllDelivered(g, ids) && forall id :: id in ids ==> g.log[id].Good?
  }

  /** What a worker in the middle of its loop can rely on. */
  ghost predicate PhaseOk(s: System, p: Phase) {
    match p
    case Idle => true
    case Scanned(poison) => forall id :: id in poison ==> id < s.group.delivered
    case Decoding(todo, kept) => AllDelivered(s.group, todo) && Decoded(s.group, kept)
    case Validating(todo, kept) => Decoded(s.group, todo) && Valids(s.group, kept)
    case Persisting(rest, fused, batch) =>
      && Valids(s.group, rest) && Valids(s.group, batch) && fused <= |rest|
      && (forall i :: 0 <= i < fused ==> rest[i] in s.applied)
      && forall id :: id in batch ==> id in rest || (s.group.log[id].event.id in s.table && id in s.applied)
  }

  ghost predicate WorkerOk(s: System, me: Worker) {
    && PhaseOk(s, me.phase)
    && (me.owes.Some? ==> me.owes.value < s.group.delivered && InDlq(s.group, me.owes.value))
  }

  ghost predicate Inv(s: System) {
    Safe(s) && forall w :: 0 <= w < |s.workers| ==> WorkerOk(s, s.workers[w])
  }

  /** Steps only ever add to the log, the DLQ and the tables. */
  ghost predicate Grows(s: System, s': System) {
    && s.group.log <= s'.group.log && s.group.delivered <= s'.group.delivered && s'.group.Valid()
    && s.group.dlq <= s'.group.dlq && s.table.Keys <= s'.table.Keys && s.applied <= s'.applied
  }

  lemma StaysInDlq(s: System, s': System, id: nat)
    requires s.group.dlq <= s'.group.dlq && InDlq(s.group, id)
    ensures InDlq(s'.group, id)
  {
    var p :| p in s.group.dlq && p.id == id;
    var i :| 0 <= i < |s.group.dlq| && s.group.dlq[i] == p;
    assert s'.group.dlq[i] == p;
  }

  lemma StaysOk(s: System, s': System, me: Worker)
    requires s.group.Valid() && Grows(s, s') && WorkerOk(s, me)
    ensures WorkerOk(s', me)
  {
    if me.owes.Some? {
      StaysInDlq(s, s', me.owes.value);
    }
  }

  lemma StaysAccounted(s: System, s': System, id: nat)
    requires Grows(s, s') && id < |s.group.log| && Accounted(s, id)
    ensures Accounted(s', id)
  {
    if InDlq(s.group, id) {
      StaysInDlq(s, s', id);
    }
  }

  lemma {:induction false} AddKeys(t: map<nat, Event>, es: seq<Event>)
    ensures AddEvents(t, es).Keys == t.Keys + set e | e in es :: e.id
  {
    if es != [] {
      AddKeys(t, es[..|es| - 1]);
      assert es == es[..|es| - 1] + [es[|es| - 1]];
    }
  }

  lemma {:induction false} EventsStored(log: seq<Body>, ids: seq<nat>, t: map<nat, Event>)
    ensures forall id :: id in ids && id < |log| && log[id].Good? ==>
            log[id].event.id in AddEvents(t, EventsAt(log, ids))
  {
    if ids != [] {
      var front, last := ids[..|ids| - 1], ids[|ids| - 1];
      assert ids == front + [last];
      EventsStored(log, front, t);
      AddKeys(t, EventsAt(log, ids));
      AddKeys(t, EventsAt(log, front));
    }
  }

  // ---- Every step keeps it ----

  lemma GrowsAndOk(s: System, s': System)
    requires Inv(s) && Grows(s, s')
    ensures forall me :: WorkerOk(s, me) ==> WorkerOk(s', me)
    ensures forall id: nat :: id < |s.group.log| && Accounted(s, id) ==> Accounted(s', id)
  {
    forall me | WorkerOk(s, me) ensures WorkerOk(s', me) {
      StaysOk(s, s', me);
    }
    forall id: nat | id < |s.group.log| && Accounted(s, id) ensures Accounted(s', id) {
      StaysAccounted(s, s', id);
    }
  }

  lemma PublishKeeps(max: nat, s: System, body: Body)
    requires Inv(s)
    ensures Inv(Next(max, s, Publish(body)))
  {
    GrowsAndOk(s, Next(max, s, Publish(body)));
  }

  lemma CrashKeeps(max: nat, s: System, w: nat)
    requires Inv(s) && w < |s.workers|
    ensures Inv(Next(max, s, Crash(w)))
  {
    GrowsAndOk(s, Next(max, s, Crash(w)));
  }

  lemma ReadKeeps(max: nat, s: System, w: nat, n: nat)
    requires Inv(s) && Enabled(s, Read(w, n))
    ensures Inv(Next(max, s, Read(w, n)))
  {
    var s' := Next(max, s, Read(w, n));
    GrowsAndOk(s, s');
    forall id: nat | s.group.delivered <= id < s'.group.delivered ensures id in s'.group.pending {
      assert Range(s.group.delivered, n)[id - s.group.delivered] == id;
    }
    forall id: nat | Acked(s'.group, id) ensures Accounted(s', id) {
      assert Acked(s.group, id);
    }
  }

  lemma ScanKeeps(max: nat, s: System, w: nat)
    requires Inv(s) && Enabled(s, Scan(w))
    ensures Inv(Next(max, s, Scan(w)))
  {
    GrowsAndOk(s, Next(max, s, Scan(w)));
  }

  lemma ClaimKeeps(max: nat, s: System, w: nat, idle: set<nat>)
    requires Inv(s) && Enabled(s, Claim(w, idle))
    ensures Inv(Next(max, s, Claim(w, idle)))
  {
    GrowsAndOk(s, Next(max, s, Claim(w, idle)));
  }

  /** Copying a delivered entry to the DLQ. */
  lemma ParkKeeps(s: System, w: nat, phase: Phase, id: nat, reason: Reason)
    requires Inv(s) && w < |s.workers| && PhaseOk(s, phase) && id < s.group.delivered
    ensures Inv(Park(s, w, phase, id, reason))
  {
    var s' := Park(s, w, phase, id, reason);
    GrowsAndOk(s, s');
    assert WorkerOk(s, Worker(phase, None));
    assert Parked(id, reason) in s'.group.dlq;
  }

  lemma SetKeeps(s: System, w: nat, phase: Phase)
    requires Inv(s) && w < |s.workers| && PhaseOk(s, phase)
    ensures Inv(Set(s, w, phase))
  {
    GrowsAndOk(s, Set(s, w, phase));
    assert WorkerOk(s, s.workers[w].(phase := phase));
  }

  /** Acknowledging entries that are accounted for. */
  lemma AckKeeps(s: System, w: nat, me: Worker, ids: seq<nat>)
    requires Inv(s) && w < |s.workers| && WorkerOk(s, me)
    requires forall id :: id in ids ==> id < s.group.delivered && Accounted(s, id)
    ensures Inv(s.(group := XAck(s.group, ids), workers := s.workers[w := me]))
  {
    var s' := s.(group := XAck(s.group, ids), workers := s.workers[w := me]);
    GrowsAndOk(s, s');
    forall id: nat | Acked(s'.group, id) ensures Accounted(s', id) {
      assert Acked(s.group, id) || id in ids;
    }
  }

  lemma DecodeKeeps(max: nat, s: System, w: nat)
    requires Inv(s) && Enabled(s, DecodeOne(w))
    ensures Inv(Next(max, s, DecodeOne(w)))
  {
    assert WorkerOk(s, s.workers[w]);
    var p := s.workers[w].phase;
    if p.todo == [] {
      SetKeeps(s, w, Validating(p.kept, []));
    } else {
      var id := p.todo[0];
      assert id in p.todo && forall x :: x in p.todo[1..] ==> x in p.todo;
      if s.group.log[id].NoPayload? {
        ParkKeeps(s, w, Decoding(p.todo[1..], p.kept), id, MissingField);
      } else if s.group.log[id].NotJson? {
        ParkKeeps(s, w, Decoding(p.todo[1..], p.kept), id, BadJson);
      } else {
        SetKeeps(s, w, Decoding(p.todo[1..], p.kept + [id]));
      }
    }
  }

  lemma ValidateKeeps(max: nat, s: System, w: nat)
    requires Inv(s) && Enabled(s, ValidateOne(w))
    ensures Inv(Next(max, s, ValidateOne(w)))
  {
    assert WorkerOk(s, s.workers[w]);
    var p := s.workers[w].phase;
    var id := p.todo[0];
    assert id in p.todo && forall x :: x in p.todo[1..] ==> x in p.todo;
    if s.group.log[id].NotEvent? {
      ParkKeeps(s, w, Validating(p.todo[1..], p.kept), id, InvalidEvent);
    } else {
      SetKeeps(s, w, Validating(p.todo[1..], p.kept + [id]));
    }
  }

  lemma BeginKeeps(max: nat, s: System, w: nat, order: seq<nat>)
    requires Inv(s) && Enabled(s, BeginPersist(w, order))
    ensures Inv(Next(max, s, BeginPersist(w, order)))
  {
    assert WorkerOk(s, s.workers[w]);
    var kept := s.workers[w].phase.kept;
    forall id ensures id in order <==> id in kept {
      assert id in multiset(order) <==> id in multiset(kept);
    }
    SetKeeps(s, w, Persisting(order, 0, kept));
  }

  lemma FuseKeeps(max: nat, s: System, w: nat)
    requires Inv(s) && Enabled(s, FuseNext(w))
    ensures Inv(Next(max, s, FuseNext(w)))
  {
    assert WorkerOk(s, s.workers[w]);
    var p := s.workers[w].phase;
    var mid := s.(applied := s.applied + {p.rest[p.fused]});
    GrowsAndOk(s, mid);
    assert WorkerOk(mid, mid.workers[w]);
    SetKeeps(mid, w, p.(fused := p.fused + 1));
  }

  /** Once its chunk is fused and stored, an entry needs nothing more. */
  lemma ChunkStored(s: System, p: Phase, table: map<nat, Event>)
    requires p.Persisting? && PhaseOk(s, p) && p.fused == ChunkOf(p.rest)
    requires table == AddEvents(s.table, EventsAt(s.group.log, p.rest[..ChunkOf(p.rest)]))
    ensures PhaseOk(s.(table := table), Persisting(p.rest[ChunkOf(p.rest)..], 0, p.batch))
  {
    var k := ChunkOf(p.rest);
    AddKeys(s.table, EventsAt(s.group.log, p.rest[..k]));
    EventsStored(s.group.log, p.rest[..k], s.table);
    assert p.rest == p.rest[..k] + p.rest[k..];
    assert forall x :: x in p.rest[k..] ==> x in p.rest;
    forall id | id in p.batch && id !in p.rest[k..] ensures s.group.log[id].event.id in table && id in s.applied {
      if id in p.rest {
        assert id in p.rest[..k];
      }
    }
  }

  lemma PersistKeeps(max: nat, s: System, w: nat)
    requires Inv(s) && Enabled(s, PersistChunk(w))
    ensures Inv(Next(max, s, PersistChunk(w)))
  {
    assert WorkerOk(s, s.workers[w]);
    var p := s.workers[w].phase;
    var k := ChunkOf(p.rest);
    var mid := s.(table := AddEvents(s.table, EventsAt(s.group.log, p.rest[..k])));
    AddKeys(s.table, EventsAt(s.group.log, p.rest[..k]));
    GrowsAndOk(s, mid);
    ChunkStored(s, p, mid.table);
    SetKeeps(mid, w, Persisting(p.rest[k..], 0, p.batch));
  }

  lemma WorkerAckKeeps(max: nat, s: System, w: nat)
    requires Inv(s) && Enabled(s, Ack(w))
    ensures Inv(Next(max, s, Ack(w)))
  {
    assert WorkerOk(s, s.workers[w]);
    AckKeeps(s, w, s.workers[w].(phase := Idle), s.workers[w].phase.batch);
  }

  lemma AckParkedKeeps(max: nat, s: System, w: nat)
    requires Inv(s) && Enabled(s, AckParked(w))
    ensures Inv(Next(max, s, AckParked(w)))
  {
    assert WorkerOk(s, s.workers[w]);
    AckKeeps(s, w, s.workers[w].(owes := None), [s.workers[w].owes.value]);
  }

  lemma ParkPoisonKeeps(max: nat, s: System, w: nat, id: nat)
    requires Inv(s) && Enabled(s, ParkPoison(w, id))
    ensures Inv(Next(max, s, ParkPoison(w, id)))
  {
    assert WorkerOk(s, s.workers[w]);
    ParkKeeps(s, w, Scanned(s.workers[w].phase.poison - {id}), id, Poison);
  }

  lemma StepKeeps(max: nat, s: System, step: Step)
    requires Inv(s) && Enabled(s, step)
    ensures Inv(Next(max, s, step))
  {
    match step
    case Publish(body) => PublishKeeps(max, s, body);
    case Crash(w) => CrashKeeps(max, s, w);
    case AckParked(w) => AckParkedKeeps(max, s, w);
    case Read(w, n) => ReadKeeps(max, s, w, n);
    case Scan(w) => ScanKeeps(max, s, w);
    case ParkPoison(w, id) => ParkPoisonKeeps(max, s, w, id);
    case Claim(w, idle) => ClaimKeeps(max, s, w, idle);
    case DecodeOne(w) => DecodeKeeps(max, s, w);
    case ValidateOne(w) => ValidateKeeps(max, s, w);
    case BeginPersist(w, order) => BeginKeeps(max, s, w, order);
    case FuseNext(w) => FuseKeeps(max, s, w);
    case PersistChunk(w) => PersistKeeps(max, s, w);
    case Ack(w) => WorkerAckKeeps(max, s, w);
  }

  // ---- Whole runs ----

  /** One enabled step after another. */
  ghost predicate IsPath(max: nat, steps: seq<Step>, states: seq<System>) {
    && |states| == |steps| + 1
    && forall i :: 0 <= i < |steps| ==>
         states[i].group.Valid() && Enabled(states[i], steps[i]) && states[i + 1] == Next(max, states[i], steps[i])
  }

  /** `states` is a run of the system: a path from a fresh start. */
  ghost predicate IsRun(max: nat, workers: nat, steps: seq<Step>, states: seq<System>) {
    IsPath(max, steps, states) && states[0] == Start(workers)
  }

  lemma {:induction false} RunKeeps(max: nat, workers: nat, steps: seq<Step>, states: seq<System>, i: nat)
    requires IsRun(max, workers, steps, states) && i < |states|
    ensures Inv(states[i])
  {
    if i > 0 {
      RunKeeps(max, workers, steps, states, i - 1);
      StepKeeps(max, states[i - 1], steps[i - 1]);
    }
  }

  /** At least once, for events and for alerts: in every interleaving of any number of workers, crashing anywhere, an
      acknowledged entry has its event in the table and its fusion outcome applied, or a copy in the DLQ, and every
      other published entry is still to be delivered or still pending. */
  lemma NothingIsLost(max: nat, workers: nat, steps: seq<Step>, states: seq<System>, i: nat, id: nat)
    requires IsRun(max, workers, steps, states) && i < |states| && id < |states[i].group.log|
    ensures var s := states[i];
            || id >= s.group.delivered
            || id in s.group.pending
            || (s.group.log[id].Good? && s.group.log[id].event.id in s.table && id in s.applied)
            || InDlq(s.group, id)
  {
    RunKeeps(max, workers, steps, states, i);
    if id < states[i].group.delivered && id !in states[i].group.pending {
      assert Acked(states[i].group, id);
    }
  }

  // ---- Exactly-once effect ----

  function Events(log: seq<Body>): set<Event> {
    set i | 0 <= i < |log| && log[i].Good? :: log[i].event
  }

  /** Every row is a published event under its own id. */
  ghost predicate OnlyPublished(s: System) {
    forall k :: k in s.table ==> s.table[k].id == k && s.table[k] in Events(s.group.log)
  }

  lemma {:induction false} EventsAtPublished(log: seq<Body>, ids: seq<nat>)
    ensures forall e :: e in EventsAt(log, ids) ==> e in Events(log)
  {
    if ids != [] {
      EventsAtPublished(log, ids[..|ids| - 1]);
      var id := ids[|ids| - 1];
      if id < |log| && log[id].Good? {
        assert log[id].event in Events(log);
      }
    }
  }

  lemma {:induction false} AddPublished(t: map<nat, Event>, es: seq<Event>, all: set<Event>)
    requires forall k :: k in t ==> t[k].id == k && t[k] in all
    requires forall e :: e in es ==> e in all
    ensures forall k :: k in AddEvents(t, es) ==> AddEvents(t, es)[k].id == k && AddEvents(t, es)[k] in all
  {
    if es != [] {
      assert es[|es| - 1] in es;
      AddPublished(t, es[..|es| - 1], all);
    }
  }

  lemma StepOnlyPublished(max: nat, s: System, step: Step)
    requires s.group.Valid() && Enabled(s, step) && OnlyPublished(s)
    ensures OnlyPublished(Next(max, s, step))
  {
    if step.PersistChunk? {
      var p := s.workers[step.w].phase;
      var k := ChunkOf(p.rest);
      EventsAtPublished(s.group.log, p.rest[..k]);
      AddPublished(s.table, EventsAt(s.group.log, p.rest[..k]), Events(s.group.log));
    } else if step.Publish? {
      assert forall i :: 0 <= i < |s.group.log| ==> (s.group.log + [step.body])[i] == s.group.log[i];
      assert Events(s.group.log) <= Events(s.group.log + [step.body]);
    }
  }

  lemma {:induction false} RunOnlyPublished(max: nat, workers: nat, steps: seq<Step>, states: seq<System>, i: nat)
    requires IsRun(max, workers, steps, states) && i < |states|
    ensures OnlyPublished(states[i])
  {
    if i > 0 {
      RunOnlyPublished(max, workers, steps, states, i - 1);
      StepOnlyPublished(max, states[i - 1], steps[i - 1]);
    }
  }

  /** Everything has been delivered and acknowledged, and no valid event was given up on. */
  ghost predicate Drained(g: Group) {
    && g.delivered == |g.log| && g.pending == {}
    && forall id: nat :: id < |g.log| && g.log[id].Good? ==> !InDlq(g, id)
  }

  lemma DrainedTable(s: System, order: seq<Event>)
    requires Inv(s) && OnlyPublished(s) && Drained(s.group)
    requires Derived(Events(s.group.log)) && ToSet(order) == Events(s.group.log)
    ensures s.table == AddEvents(map[], order)
  {
    forall e | e in Events(s.group.log) ensures e.id in s.table && s.table[e.id] == e {
      var id: nat :| id < |s.group.log| && s.group.log[id].Good? && s.group.log[id].event == e;
      assert Acked(s.group, id);
      assert s.table[e.id] in Events(s.group.log);
    }
    assert Holds(s.table, Events(s.group.log));
    assert {} + ToSet(order) == ToSet(order);
    AddHolds(map[], {}, order);
    HoldsOneTable(s.table, AddEvents(map[], order), Events(s.group.log));
  }

  /** Once nothing is undelivered or pending and no valid event was given up on, the events table is exactly
      what one delivery of the log to one worker would have left, however many deliveries there were. */
  lemma ExactlyOnceEffect(max: nat, workers: nat, steps: seq<Step>, states: seq<System>, i: nat, order: seq<Event>)
    requires IsRun(max, workers, steps, states) && i < |states| && Drained(states[i].group)
    requires Derived(Events(states[i].group.log)) && ToSet(order) == Events(states[i].group.log)
    ensures states[i].table == AddEvents(map[], order)
  {
    RunKeeps(max, workers, steps, states, i);
    RunOnlyPublished(max, workers, steps, states, i);
    DrainedTable(states[i], order);
  }

  /** The same along any path. */
  lemma {:induction false} PathKeeps(max: nat, steps: seq<Step>, states: seq<System>, i: nat)
    requires IsPath(max, steps, states) && Inv(states[0]) && i < |states|
    ensures Inv(states[i]) && (OnlyPublished(states[0]) ==> OnlyPublished(states[i]))
  {
    if i > 0 {
      PathKeeps(max, steps, states, i - 1);
      StepKeeps(max, states[i - 1], steps[i - 1]);
      if OnlyPublished(states[0]) {
        StepOnlyPublished(max, states[i - 1], steps[i - 1]);
      }
    }
  }
}
