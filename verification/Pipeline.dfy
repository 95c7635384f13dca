/** The pipeline worker's core: one event at a time through fusion, outcomes applied at once, events and
    detector results buffered and persisted in chunks. Feature extraction and the detectors are inputs: each
    event comes with the results it produced. */
module Pipeline {
  import opened Common
  import opened Fusion
  import opened FusionRuns
  import opened Store
  import opened Accounting

  datatype Item = Item(event: Event, results: seq<Result>)
  {
    function Tick(): FusionRuns.Tick { FusionRuns.Tick(event.epoch, results) }
  }

  function EventsOf(items: seq<Item>): seq<Event> {
    if items == [] then [] else EventsOf(items[..|items| - 1]) + [items[|items| - 1].event]
  }

  function ResultsOf(ticks: seq<Tick>): seq<Result> {
    if ticks == [] then [] else ResultsOf(ticks[..|ticks| - 1]) + ticks[|ticks| - 1].results
  }

  function TicksOf(items: seq<Item>): seq<Tick> {
    if items == [] then [] else TicksOf(items[..|items| - 1]) + [items[|items| - 1].Tick()]
  }

  /** Fusion state and tables after some steps: each step expires, ingests and applies its outcome. */
  function Drive(cfg: Config, s: State, t: Tables, ticks: seq<Tick>): (State, Tables)
    requires cfg.Valid()
  {
    if ticks == [] then (s, t)
    else
      var (s', t') := Drive(cfg, s, t, ticks[..|ticks| - 1]);
      var (s'', out) := Step(cfg, s', ticks[|ticks| - 1]);
      (s'', Applied(t', out))
  }

  /** From a new worker, driving the steps is the run whose table adds up. */
  lemma {:induction false} DriveIsRecorded(cfg: Config, base: Tables, ticks: seq<Tick>)
    requires cfg.Valid()
    ensures Drive(cfg, Initial(cfg), base, ticks) == (Play(cfg, ticks).0, Recorded(cfg, base, ticks))
  {
    if ticks != [] {
      DriveIsRecorded(cfg, base, ticks[..|ticks| - 1]);
    }
  }

  /** The same as one fold over the steps. */
  function Stepper(cfg: Config): ((State, Tables), Tick) -> (State, Tables)
    requires cfg.Valid()
  {
    (at: (State, Tables), tick: Tick) =>
      var (s, out) := Step(cfg, at.0, tick);
      (s, Applied(at.1, out))
  }

  lemma {:induction false} DriveIsFold(cfg: Config, s: State, t: Tables, ticks: seq<Tick>)
    requires cfg.Valid()
    ensures Drive(cfg, s, t, ticks) == Fold(Stepper(cfg), (s, t), ticks)
  {
    if ticks != [] {
      DriveIsFold(cfg, s, t, ticks[..|ticks| - 1]);
    }
  }

  lemma {:induction false} DriveAppend(cfg: Config, s: State, t: Tables, a: seq<Tick>, b: seq<Tick>, s': State,
                                       t': Tables)
    requires cfg.Valid() && Drive(cfg, s, t, a) == (s', t')
    ensures Drive(cfg, s, t, a + b) == Drive(cfg, s', t', b)
  {
    DriveIsFold(cfg, s, t, a);
    DriveIsFold(cfg, s, t, a + b);
    DriveIsFold(cfg, s', t', b);
    FoldAppend(Stepper(cfg), (s, t), a, b);
  }

  lemma {:induction false} ResultsAppend(a: seq<Tick>, b: seq<Tick>)
    ensures ResultsOf(a + b) == ResultsOf(a) + ResultsOf(b)
  {
    if b == [] {
      assert a + b == a;
    } else {
      var front, last := b[..|b| - 1], b[|b| - 1].results;
      ResultsAppend(a, front);
      assert (a + b)[..|a + b| - 1] == a + front;
      assert (ResultsOf(a) + ResultsOf(front)) + last == ResultsOf(a) + (ResultsOf(front) + last);
    }
  }

  /** The part of the tables that outcomes write to. */
  ghost predicate SameOutcomes(a: Tables, b: Tables) {
    a.alerts == b.alerts && a.audit == b.audit && a.incidents == b.incidents
  }

  class PipelineRunner {
    const fusion: ThreatFusion
    const db: Database
    var events: nat
    var pendingFlush: bool

    ghost predicate Valid()
      reads this, fusion
    {
      fusion.Valid()
    }

    constructor (cfg: Config)
      requires cfg.Valid()
      ensures Valid() && fresh(fusion) && fresh(db)
      ensures fusion.cfg == cfg && fusion.Model() == Initial(cfg) && db.Model() == EMPTY
      ensures events == 0 && !pendingFlush
    {
      fusion := new ThreatFusion(cfg);
      db := new Database();
      events, pendingFlush := 0, false;
    }

    /** Expire what has gone quiet by the step's time, then fuse its results. */
    method ProcessTick(t: Tick) returns (out: seq<Emission>)
      requires Valid()
      modifies fusion
      ensures Valid() && (fusion.Model(), out) == Step(fusion.cfg, old(fusion.Model()), t)
    {
      fusion.Expire(t.now);
      out := fusion.Ingest(t.results);
    }

    /** Write an outcome to the tables: alerts, then touches one by one, then incidents. */
    method ApplyOutcome(out: seq<Emission>, persist: bool)
      modifies db`alerts, db`audit, db`incidents
      ensures db.Model() == if persist then Applied(old(db.Model()), out) else old(db.Model())
    {
      if persist {
        var _ := db.InsertAlerts(out);
        TouchAll(out);
        db.UpsertIncidents(out);
      }
    }

    method TouchAll(out: seq<Emission>)
      modifies db`alerts, db`audit
      ensures db.alerts == TouchRows(old(db.alerts), out)
      ensures db.audit == old(db.audit) + DedupedRows(out)
    {
      for i := 0 to |out|
        invariant db.alerts == TouchRows(old(db.alerts), out[..i])
        invariant db.audit == old(db.audit) + DedupedRows(out[..i])
      {
        assert out[..i + 1][..i] == out[..i];
        if out[i].Touched? {
          db.TouchAlert(out[i].touch);
        }
      }
      assert out[..|out|] == out;
    }

    /** One step through fusion and, when persisting, into the outcome tables. */
    method RunTick(t: Tick, persist: bool)
      requires Valid()
      modifies fusion, db`alerts, db`audit, db`incidents
      ensures Valid()
      ensures StepTo(fusion.cfg, old(fusion.Model()), old(db.Model()), t, fusion.Model(), db.Model(), persist)
    {
      var out := ProcessTick(t);
      ApplyOutcome(out, persist);
    }

    method Persist(eventBuffer: seq<Event>, resultBuffer: seq<Result>)
      modifies db`events, db`results
      ensures db.events == AddEvents(old(db.events), eventBuffer)
      ensures db.results == old(db.results) + resultBuffer
    {
      if eventBuffer != [] {
        var _ := db.InsertEvents(eventBuffer);
      }
      if resultBuffer != [] {
        db.InsertDetectorResults(resultBuffer);
      }
    }

    /** One event of a batch: through fusion, into the buffers, and out to the store when they are full. */
    method HandleOne(item: Item, eventsIn: seq<Event>, resultsIn: seq<Result>, persist: bool)
      returns (eventBuffer: seq<Event>, resultBuffer: seq<Result>)
      requires Valid() && (persist ==> |eventsIn| < CHUNK)
      modifies fusion, db, this`events
      ensures Valid() && events == old(events) + 1
      ensures StepTo(fusion.cfg, old(fusion.Model()), old(db.Model()), item.Tick(), fusion.Model(), db.Model(), persist)
      ensures Buffers(old(db.Model()), eventsIn + [item.event], resultsIn + item.results, db.Model(),
                      eventBuffer, resultBuffer, persist)
    {
      RunTick(item.Tick(), persist);
      events := events + 1;
      eventBuffer, resultBuffer := eventsIn + [item.event], resultsIn + item.results;
      if persist && |eventBuffer| >= CHUNK {
        Persist(eventBuffer, resultBuffer);
        eventBuffer, resultBuffer := [], [];
      }
    }

    /** The main loop over a batch; what is still buffered at its end is returned. */
    method HandleAll(items: seq<Item>, persist: bool) returns (eventBuffer: seq<Event>, resultBuffer: seq<Result>)
      requires Valid()
      modifies fusion, db, this`events
      ensures Valid() && events == old(events) + |items|
      ensures DriveTo(fusion.cfg, old(fusion.Model()), old(db.Model()), TicksOf(items),
                      fusion.Model(), db.Model(), persist)
      ensures Buffers(old(db.Model()), EventsOf(items), ResultsOf(TicksOf(items)), db.Model(),
                      eventBuffer, resultBuffer, persist)
    {
      eventBuffer, resultBuffer := [], [];
      ghost var s0, t0 := fusion.Model(), db.Model();
      for i := 0 to |items|
        invariant Valid() && events == old(events) + i
        invariant DriveTo(fusion.cfg, s0, t0, TicksOf(items[..i]), fusion.Model(), db.Model(), persist)
        invariant Buffers(t0, EventsOf(items[..i]), ResultsOf(TicksOf(items[..i])), db.Model(), eventBuffer,
                resultBuffer, persist)
      {
        OneMoreItem(items, i);
        ghost var s1, t1, events1, results1 := fusion.Model(), db.Model(), eventBuffer, resultBuffer;
        eventBuffer, resultBuffer := HandleOne(items[i], eventBuffer, resultBuffer, persist);
        DriveOne(fusion.cfg, s0, t0, TicksOf(items[..i]), s1, t1, items[i].Tick(), fusion.Model(), db.Model(), persist);
        BuffersOne(t0, EventsOf(items[..i]), ResultsOf(TicksOf(items[..i])), t1, events1, results1, items[i],
                   db.Model(), eventBuffer, resultBuffer, persist);
      }
      assert items[..|items|] == items;
    }

    /** One step of a final flush; `done` are those before it. */
    method CloseOne(t: Tick, ghost s0: State, ghost t0: Tables, ghost done: seq<Tick>, persist: bool)
      requires Valid()
      requires DriveTo(fusion.cfg, s0, t0, done, fusion.Model(), db.Model(), persist)
      modifies fusion, db`alerts, db`audit, db`incidents
      ensures Valid()
      ensures DriveTo(fusion.cfg, s0, t0, done + [t], fusion.Model(), db.Model(), persist)
    {
      ghost var s1, t1 := fusion.Model(), db.Model();
      RunTick(t, persist);
      DriveOne(fusion.cfg, s0, t0, done, s1, t1, t, fusion.Model(), db.Model(), persist);
    }

    /** The steps of a final flush run through fusion; their results join the buffer. */
    method CloseWindows(closing: seq<Tick>, resultsIn: seq<Result>, persist: bool) returns (resultBuffer: seq<Result>)
      requires Valid()
      modifies fusion, db`alerts, db`audit, db`incidents
      ensures Valid() && resultBuffer == resultsIn + ResultsOf(closing)
      ensures DriveTo(fusion.cfg, old(fusion.Model()), old(db.Model()), closing, fusion.Model(), db.Model(), persist)
    {
      resultBuffer := resultsIn;
      ghost var s0, t0 := fusion.Model(), db.Model();
      for i := 0 to |closing|
        invariant Valid() && resultBuffer == resultsIn + ResultsOf(closing[..i])
        invariant DriveTo(fusion.cfg, s0, t0, closing[..i], fusion.Model(), db.Model(), persist)
      {
        OneMoreTick(closing, i);
        resultBuffer := resultBuffer + closing[i].results;
        assert resultBuffer == resultsIn + ResultsOf(closing[..i + 1]);
        CloseOne(closing[i], s0, t0, closing[..i], persist);
      }
      assert closing[..|closing|] == closing;
    }

    /** A bounded batch: every event runs through fusion in order, and events and results reach the store in
        chunks of 500 and a last short one. `closing` are the steps of the final flush, when there is one. */
    method HandleEvents(items: seq<Item>, closing: seq<Tick>, persist: bool, flush: bool)
      requires Valid()
      modifies this, fusion, db
      ensures Valid()
      ensures Handled(fusion.cfg, old(fusion.Model()), old(db.Model()), items, if flush then closing else [],
                      fusion.Model(), db.Model(), persist)
      ensures pendingFlush == !flush && events == old(events) + |items|
    {
      pendingFlush := true;
      ghost var s0, t0 := fusion.Model(), db.Model();
      var eventBuffer, resultBuffer := HandleAll(items, persist);
      ghost var s1, t1, results1 := fusion.Model(), db.Model(), resultBuffer;
      ghost var closed := if flush then closing else [];
      if flush {
        pendingFlush := false;
        resultBuffer := CloseWindows(closing, resultBuffer, persist);
      }
      ghost var s2, t2 := fusion.Model(), db.Model();
      if persist {
        Persist(eventBuffer, resultBuffer);
      }
      Finish(fusion.cfg, s0, t0, items, s1, t1, closed, s2, t2, eventBuffer, results1, db.Model(), persist);
    }
  }

  /** What a batch leaves behind: fusion driven through every step, every outcome applied, every event and
      every detector result stored, whatever the chunking. */
  ghost predicate Handled(cfg: Config, s0: State, t0: Tables, items: seq<Item>, closing: seq<Tick>, s: State, t: Tables,
                          persist: bool)
    requires cfg.Valid()
  {
    var ticks := TicksOf(items) + closing;
    && DriveTo(cfg, s0, t0, ticks, s, t, persist)
    && t.results == t0.results + (if persist then ResultsOf(ticks) else [])
    && t.events == if persist then AddEvents(t0.events, EventsOf(items)) else t0.events
  }

  lemma {:induction false} Finish(cfg: Config, s0: State, t0: Tables, items: seq<Item>, s1: State, t1: Tables,
                                  closing: seq<Tick>, s2: State, t2: Tables, eventBuffer: seq<Event>,
                                  results1: seq<Result>, t: Tables, persist: bool)
    requires cfg.Valid()
    requires DriveTo(cfg, s0, t0, TicksOf(items), s1, t1, persist) && DriveTo(cfg, s1, t1, closing, s2, t2, persist)
    requires Buffers(t0, EventsOf(items), ResultsOf(TicksOf(items)), t1, eventBuffer, results1, persist)
    requires t2.events == t1.events && t2.results == t1.results && SameOutcomes(t, t2)
    requires t.events == if persist then AddEvents(t2.events, eventBuffer) else t2.events
    requires t.results == t2.results + (if persist then results1 + ResultsOf(closing) else [])
    ensures Handled(cfg, s0, t0, items, closing, s2, t, persist)
  {
    DriveMore(cfg, s0, t0, TicksOf(items), s1, t1, closing, s2, t2, persist);
    ResultsAppend(TicksOf(items), closing);
    if persist {
      Together(t.results, t1.results, results1, ResultsOf(closing), t0.results, ResultsOf(TicksOf(items)));
    }
  }

  lemma Together<T>(all: seq<T>, stored: seq<T>, buffered: seq<T>, closed: seq<T>, first: seq<T>, rest: seq<T>)
    requires all == stored + (buffered + closed) && stored + buffered == first + rest
    ensures all == first + (rest + closed)
  {
    assert all == (stored + buffered) + closed;
  }

  /** `evs` and `rs` have either reached the tables or are still in the buffers, in order. */
  ghost predicate Buffers(t0: Tables, evs: seq<Event>, rs: seq<Result>, t: Tables, eventBuffer: seq<Event>,
                          resultBuffer: seq<Result>, persist: bool) {
    && (persist ==> |eventBuffer| < 500 && AddEvents(t.events, eventBuffer) == AddEvents(t0.events, evs)
                    && t.results + resultBuffer == t0.results + rs)
    && (!persist ==> t.events == t0.events && t.results == t0.results)
  }

  lemma {:induction false} BuffersOne(t0: Tables, evs: seq<Event>, rs: seq<Result>, t1: Tables, events1: seq<Event>,
                                      results1: seq<Result>, item: Item, t2: Tables, events2: seq<Event>,
                                      results2: seq<Result>, persist: bool)
    requires Buffers(t0, evs, rs, t1, events1, results1, persist)
    requires Buffers(t1, events1 + [item.event], results1 + item.results, t2, events2, results2, persist)
    ensures Buffers(t0, evs + [item.event], rs + item.results, t2, events2, results2, persist)
  {
    AddAppend(t1.events, events1, [item.event]);
    AddAppend(t0.events, evs, [item.event]);
    assert t1.results + (results1 + item.results) == (t1.results + results1) + item.results;
    assert t0.results + (rs + item.results) == (t0.results + rs) + item.results;
  }

  /** Some steps take one state and tables to another; tables stay put unless persisting. */
  ghost predicate DriveTo(cfg: Config, s: State, t: Tables, ticks: seq<Tick>, s': State, t': Tables, persist: bool)
    requires cfg.Valid()
  {
    && s' == Drive(cfg, s, t, ticks).0
    && SameOutcomes(t', if persist then Drive(cfg, s, t, ticks).1 else t)
  }

  ghost predicate StepTo(cfg: Config, s: State, t: Tables, tick: Tick, s': State, t': Tables, persist: bool)
    requires cfg.Valid()
  {
    && s' == Step(cfg, s, tick).0
    && SameOutcomes(t', if persist then Applied(t, Step(cfg, s, tick).1) else t)
  }

  lemma {:induction false} DriveOne(cfg: Config, s: State, t: Tables, ticks: seq<Tick>, s1: State, t1: Tables,
                                    tick: Tick, s2: State, t2: Tables, persist: bool)
    requires cfg.Valid() && DriveTo(cfg, s, t, ticks, s1, t1, persist) && StepTo(cfg, s1, t1, tick, s2, t2, persist)
    ensures DriveTo(cfg, s, t, ticks + [tick], s2, t2, persist)
  {
    assert (ticks + [tick])[..|ticks|] == ticks;
  }

  lemma {:induction false} DriveMore(cfg: Config, s: State, t: Tables, ticks: seq<Tick>, s1: State, t1: Tables,
                                     more: seq<Tick>, s2: State, t2: Tables, persist: bool)
    requires cfg.Valid() && DriveTo(cfg, s, t, ticks, s1, t1, persist) && DriveTo(cfg, s1, t1, more, s2, t2, persist)
    ensures DriveTo(cfg, s, t, ticks + more, s2, t2, persist)
  {
    DriveAppend(cfg, s, t, ticks, more, Drive(cfg, s, t, ticks).0, Drive(cfg, s, t, ticks).1);
    DriveSame(cfg, s1, t1, Drive(cfg, s, t, ticks).1, more);
  }

  /** Fusion does not look at the tables, nor applying outcomes at the events or detector results stored. */
  lemma {:induction false} DriveSame(cfg: Config, s: State, a: Tables, b: Tables, ticks: seq<Tick>)
    requires cfg.Valid()
    ensures Drive(cfg, s, a, ticks).0 == Drive(cfg, s, b, ticks).0
    ensures SameOutcomes(a, b) ==> SameOutcomes(Drive(cfg, s, a, ticks).1, Drive(cfg, s, b, ticks).1)
  {
    if ticks != [] {
      DriveSame(cfg, s, a, b, ticks[..|ticks| - 1]);
    }
  }

  lemma OneMoreItem(items: seq<Item>, i: nat)
    requires i < |items|
    ensures TicksOf(items[..i + 1]) == TicksOf(items[..i]) + [items[i].Tick()]
    ensures TicksOf(items[..i + 1])[..|TicksOf(items[..i])|] == TicksOf(items[..i])
    ensures EventsOf(items[..i + 1]) == EventsOf(items[..i]) + [items[i].event]
    ensures EventsOf(items[..i + 1])[..|EventsOf(items[..i])|] == EventsOf(items[..i])
  {
    assert items[..i + 1][..i] == items[..i];
  }

  lemma OneMoreTick(ticks: seq<Tick>, i: nat)
    requires i < |ticks|
    ensures ticks[..i + 1] == ticks[..i] + [ticks[i]]
    ensures ResultsOf(ticks[..i + 1]) == ResultsOf(ticks[..i]) + ticks[i].results
  {
    assert ticks[..i + 1][..i] == ticks[..i];
  }
}
