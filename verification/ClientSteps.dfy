/** Each turn of the worker loop is a path of the interleaved protocol, the other workers standing still; what it writes
    is what the batch pipeline writes. */
module ClientSteps {
  import opened Common
  import opened Fusion
  import opened FusionRuns
  import opened Store
  import opened Pipeline
  import opened Stream
  import opened Protocol
  import opened Client
  import opened Fleets

  /** The fleet can get from one state to the other. */
  ghost predicate Leads(cfg: Config, max: nat, f: Fleet, f': Fleet)
    requires cfg.Valid()
  {
    exists acts: seq<Act>, fleets: seq<Fleet> ::
      IsFleetPath(cfg, max, acts, fleets) && fleets[0] == f && fleets[|acts|] == f'
  }

  lemma LeadsNowhere(cfg: Config, max: nat, f: Fleet)
    requires cfg.Valid()
    ensures Leads(cfg, max, f, f)
  {
    var acts: seq<Act>, fleets := [], [f];
    assert IsFleetPath(cfg, max, acts, fleets) && fleets[0] == f && fleets[|acts|] == f;
  }

  lemma {:induction false} ActMoved(cfg: Config, max: nat, acts: seq<Act>, fleets: seq<Fleet>, i: nat, acts': seq<Act>,
                                    fleets': seq<Fleet>, j: nat)
    requires cfg.Valid() && i < |acts| && i + 1 < |fleets| && IsAct(cfg, max, acts, fleets, i)
    requires j < |acts'| && j + 1 < |fleets'|
    requires acts'[j] == acts[i] && fleets'[j] == fleets[i] && fleets'[j + 1] == fleets[i + 1]
    ensures IsAct(cfg, max, acts', fleets', j)
  {
  }

  /** Two paths one after the other. */
  lemma {:induction false} PathsJoin(cfg: Config, max: nat, acts: seq<Act>, fleets: seq<Fleet>, more: seq<Act>,
                                     next: seq<Fleet>)
    requires cfg.Valid() && IsFleetPath(cfg, max, acts, fleets) && IsFleetPath(cfg, max, more, next)
    requires next[0] == fleets[|acts|]
    ensures IsFleetPath(cfg, max, acts + more, fleets + next[1..])
  {
    var acts', fleets', n := acts + more, fleets + next[1..], |acts|;
    assert forall i :: 0 <= i <= n ==> fleets'[i] == fleets[i];
    assert forall i :: n <= i < |fleets'| ==> fleets'[i] == next[i - n];
    forall i | 0 <= i < |acts'| ensures IsAct(cfg, max, acts', fleets', i) {
      if i < n {
        ActMoved(cfg, max, acts, fleets, i, acts', fleets', i);
      } else {
        ActMoved(cfg, max, more, next, i - n, acts', fleets', i);
      }
    }
  }

  lemma {:induction false} LeadsOn(cfg: Config, max: nat, f: Fleet, g: Fleet, h: Fleet)
    requires cfg.Valid() && Leads(cfg, max, f, g) && Leads(cfg, max, g, h)
    ensures Leads(cfg, max, f, h)
  {
    var acts: seq<Act>, fleets: seq<Fleet> :|
      IsFleetPath(cfg, max, acts, fleets) && fleets[0] == f && fleets[|acts|] == g;
    var more: seq<Act>, next: seq<Fleet> :|
      IsFleetPath(cfg, max, more, next) && next[0] == g && next[|more|] == h;
    PathsJoin(cfg, max, acts, fleets, more, next);
    var acts', fleets' := acts + more, fleets + next[1..];
    assert fleets'[0] == f && fleets'[|acts'|] == h;
  }

  lemma {:induction false} OneAct(cfg: Config, max: nat, f: Fleet, a: Act)
    requires cfg.Valid() && Can(f, a)
    ensures Leads(cfg, max, f, After(cfg, max, f, a))
  {
    var acts, fleets := [a], [f, After(cfg, max, f, a)];
    assert IsAct(cfg, max, acts, fleets, 0);
    assert IsFleetPath(cfg, max, acts, fleets) && fleets[0] == f && fleets[|acts|] == After(cfg, max, f, a);
  }

  lemma {:induction false} LeadsStep(cfg: Config, max: nat, f: Fleet, f': Fleet, a: Act)
    requires cfg.Valid() && Leads(cfg, max, f, f') && Can(f', a)
    ensures Leads(cfg, max, f, After(cfg, max, f', a))
  {
    OneAct(cfg, max, f', a);
    LeadsOn(cfg, max, f, f', After(cfg, max, f', a));
  }

  /** What holds of the protocol's states holds along any path. */
  lemma {:induction false} LeadsKeeps(cfg: Config, max: nat, f: Fleet, f': Fleet)
    requires cfg.Valid() && Leads(cfg, max, f, f') && Inv(f.s)
    ensures Inv(f'.s) && (OnlyPublished(f.s) ==> OnlyPublished(f'.s))
  {
    var acts: seq<Act>, fleets: seq<Fleet> :|
      IsFleetPath(cfg, max, acts, fleets) && fleets[0] == f && fleets[|acts|] == f';
    PathOfSystems(cfg, max, acts, fleets);
    PathKeeps(max, Steps(acts), Systems(fleets), |acts|);
  }

  /** Everything fusing an event changes: the entries applied, the fusion states, the alert tables. */
  datatype Effects = Effects(applied: set<nat>, minds: seq<State>, tables: Tables)

  function Own(f: Fleet): Effects { Effects(f.s.applied, f.minds, f.tables) }

  /** A valid configuration and a fusion state for each worker. */
  ghost predicate Manned(cfg: Config, f: Fleet, w: nat, e: Effects) {
    cfg.Valid() && w < |f.s.workers| == |e.minds|
  }

  /** Worker `w` with the group, tables, effects and state given; the other workers as they were. */
  function With(f: Fleet, g: Group, t: map<nat, Event>, e: Effects, w: nat, phase: Phase): Fleet
    requires w < |f.s.workers|
  {
    Fleet(System(g, t, e.applied, f.s.workers[w := Protocol.Worker(phase, None)]), e.minds, e.tables)
  }

  /** The same with the tables and effects as they were too. */
  function At(f: Fleet, g: Group, w: nat, phase: Phase): Fleet
    requires w < |f.s.workers|
  {
    With(f, g, f.s.table, Own(f), w, phase)
  }

  /** A step that neither fuses nor crashes. */
  predicate Plain(step: Protocol.Step) {
    !step.FuseNext? && !step.Crash?
  }

  lemma AppliedNothing(t: Tables)
    ensures Applied(t, []) == t
  {
  }

  /** Such a step changes only the system. */
  lemma {:induction false} TableLeads(cfg: Config, max: nat, f: Fleet, w: nat, g: Group, t: map<nat, Event>, e: Effects,
                                      p: Phase, step: Protocol.Step, g': Group, t': map<nat, Event>, p': Phase)
    requires Manned(cfg, f, w, e) && g.Valid() && Plain(step) && Leads(cfg, max, f, With(f, g, t, e, w, p))
    requires Enabled(With(f, g, t, e, w, p).s, step)
    requires Next(max, With(f, g, t, e, w, p).s, step) == With(f, g', t', e, w, p').s
    ensures Leads(cfg, max, f, With(f, g', t', e, w, p'))
  {
    var mid, act := With(f, g, t, e, w, p), Act(step, []);
    LeadsStep(cfg, max, f, mid, act);
    AppliedNothing(mid.tables);
    assert After(cfg, max, mid, act) == With(f, g', t', e, w, p');
  }

  lemma StepLeads(cfg: Config, max: nat, f: Fleet, w: nat, g: Group, p: Phase, step: Protocol.Step, g': Group,
                  p': Phase)
    requires Manned(cfg, f, w, Own(f)) && g.Valid() && Plain(step) && Leads(cfg, max, f, At(f, g, w, p))
    requires Enabled(At(f, g, w, p).s, step) && Next(max, At(f, g, w, p).s, step) == At(f, g', w, p').s
    ensures Leads(cfg, max, f, At(f, g', w, p'))
  {
    TableLeads(cfg, max, f, w, g, f.s.table, Own(f), p, step, g', f.s.table, p');
  }

  /** Parking an entry is two steps of the protocol. */
  lemma {:induction false} ParkLeads(cfg: Config, max: nat, f: Fleet, w: nat, g: Group, p: Phase, step: Protocol.Step,
                                     p': Phase, id: nat, reason: Reason)
    requires Manned(cfg, f, w, Own(f)) && g.Valid() && Plain(step) && Leads(cfg, max, f, At(f, g, w, p))
    requires Enabled(At(f, g, w, p).s, step)
    requires Next(max, At(f, g, w, p).s, step) == Park(At(f, g, w, p).s, w, p', id, reason)
    ensures DeadLettered(g, id, reason).Valid()
    ensures Leads(cfg, max, f, At(f, DeadLettered(g, id, reason), w, p'))
  {
    var mid := At(f, g, w, p);
    LeadsStep(cfg, max, f, mid, Act(step, []));
    AppliedNothing(f.tables);
    var parked := Fleet(Park(mid.s, w, p', id, reason), f.minds, f.tables);
    assert After(cfg, max, mid, Act(step, [])) == parked;
    LeadsStep(cfg, max, f, parked, Act(AckParked(w), []));
    assert After(cfg, max, parked, Act(AckParked(w), [])) == At(f, DeadLettered(g, id, reason), w, p');
  }

  /** The ids are entries of the log, as whatever was delivered is. */
  ghost predicate InLog(g: Group, ids: seq<nat>) {
    forall id :: id in ids ==> id < |g.log|
  }

  lemma {:induction false} DecodeFrame(g: Group, ids: seq<nat>)
    requires g.Valid()
    ensures DecodeAll(g, ids).0.Valid() && DecodeAll(g, ids).0.log == g.log
    ensures forall id :: id in DecodeAll(g, ids).1 ==> id in ids
  {
    if ids != [] {
      DecodeFrame(g, ids[..|ids| - 1]);
    }
  }

  lemma {:induction false} DecodeNext(g: Group, ids: seq<nat>, n: nat)
    requires 0 < n <= |ids|
    ensures var ((g', kept), id) := (DecodeAll(g, ids[..n - 1]), ids[n - 1]);
            DecodeAll(g, ids[..n]) ==
            match BodyOf(g', id)
            case NoPayload => (DeadLettered(g', id, MissingField), kept)
            case NotJson => (DeadLettered(g', id, BadJson), kept)
            case _ => (g', kept + [id])
  {
    assert ids[..n][..n - 1] == ids[..n - 1];
  }

  lemma {:induction false} DecodeLeads(cfg: Config, max: nat, f: Fleet, w: nat, g: Group, ids: seq<nat>, n: nat)
    requires Manned(cfg, f, w, Own(f)) && g.Valid() && Leads(cfg, max, f, At(f, g, w, Decoding(ids, [])))
    requires InLog(g, ids) && n <= |ids|
    ensures var (g', kept) := DecodeAll(g, ids[..n]);
            g'.Valid() && g'.log == g.log && Leads(cfg, max, f, At(f, g', w, Decoding(ids[n..], kept)))
  {
    DecodeFrame(g, ids[..n]);
    if n == 0 {
      assert ids[0..] == ids && ids[..0] == [];
    } else {
      DecodeLeads(cfg, max, f, w, g, ids, n - 1);
      var (g1, kept1) := DecodeAll(g, ids[..n - 1]);
      var id, todo := ids[n - 1], ids[n - 1..];
      assert id in ids && todo[0] == id && todo[1..] == ids[n..];
      DecodeNext(g, ids, n);
      DecodeOneLeads(cfg, max, f, w, g1, id, todo, kept1);
    }
  }

  lemma {:induction false} DecodeOneLeads(cfg: Config, max: nat, f: Fleet, w: nat, g: Group, id: nat, todo: seq<nat>,
                                          kept: seq<nat>)
    requires Manned(cfg, f, w, Own(f)) && g.Valid() && todo != [] && todo[0] == id < |g.log|
    requires Leads(cfg, max, f, At(f, g, w, Decoding(todo, kept)))
    ensures match BodyOf(g, id)
            case NoPayload => Leads(cfg, max, f, At(f, DeadLettered(g, id, MissingField), w,
                    Decoding(todo[1..], kept)))
            case NotJson => Leads(cfg, max, f, At(f, DeadLettered(g, id, BadJson), w, Decoding(todo[1..], kept)))
            case _ => Leads(cfg, max, f, At(f, g, w, Decoding(todo[1..], kept + [id])))
  {
    var p := Decoding(todo, kept);
    if g.log[id].NoPayload? {
      ParkLeads(cfg, max, f, w, g, p, DecodeOne(w), Decoding(todo[1..], kept), id, MissingField);
    } else if g.log[id].NotJson? {
      ParkLeads(cfg, max, f, w, g, p, DecodeOne(w), Decoding(todo[1..], kept), id, BadJson);
    } else {
      StepLeads(cfg, max, f, w, g, p, DecodeOne(w), g, Decoding(todo[1..], kept + [id]));
    }
  }

  lemma {:induction false} ValidateNext(g: Group, ids: seq<nat>, n: nat)
    requires 0 < n <= |ids|
    ensures var ((g', kept), id) := (ValidateAll(g, ids[..n - 1]), ids[n - 1]);
            ValidateAll(g, ids[..n]) ==
            if BodyOf(g', id).NotEvent? then (DeadLettered(g', id, InvalidEvent), kept) else (g', kept + [id])
  {
    assert ids[..n][..n - 1] == ids[..n - 1];
  }

  lemma {:induction false} ValidateOneLeads(cfg: Config, max: nat, f: Fleet, w: nat, g: Group, id: nat, todo: seq<nat>,
                                            kept: seq<nat>)
    requires Manned(cfg, f, w, Own(f)) && g.Valid() && todo != [] && todo[0] == id < |g.log|
    requires Leads(cfg, max, f, At(f, g, w, Validating(todo, kept)))
    ensures if BodyOf(g, id).NotEvent?
            then Leads(cfg, max, f, At(f, DeadLettered(g, id, InvalidEvent), w, Validating(todo[1..], kept)))
            else Leads(cfg, max, f, At(f, g, w, Validating(todo[1..], kept + [id])))
  {
    var p := Validating(todo, kept);
    if g.log[id].NotEvent? {
      ParkLeads(cfg, max, f, w, g, p, ValidateOne(w), Validating(todo[1..], kept), id, InvalidEvent);
    } else {
      StepLeads(cfg, max, f, w, g, p, ValidateOne(w), g, Validating(todo[1..], kept + [id]));
    }
  }

  lemma {:induction false} ValidateFrame(g: Group, ids: seq<nat>)
    requires g.Valid()
    ensures ValidateAll(g, ids).0.Valid() && ValidateAll(g, ids).0.log == g.log
  {
    if ids != [] {
      ValidateFrame(g, ids[..|ids| - 1]);
    }
  }

  lemma {:induction false} ValidateLeads(cfg: Config, max: nat, f: Fleet, w: nat, g: Group, ids: seq<nat>, n: nat)
    requires Manned(cfg, f, w, Own(f)) && g.Valid() && Leads(cfg, max, f, At(f, g, w, Validating(ids, [])))
    requires InLog(g, ids) && n <= |ids|
    ensures var (g', kept) := ValidateAll(g, ids[..n]);
            g'.Valid() && g'.log == g.log && Leads(cfg, max, f, At(f, g', w, Validating(ids[n..], kept)))
  {
    ValidateFrame(g, ids[..n]);
    if n == 0 {
      assert ids[0..] == ids && ids[..0] == [];
    } else {
      ValidateLeads(cfg, max, f, w, g, ids, n - 1);
      var (g1, kept1) := ValidateAll(g, ids[..n - 1]);
      var id, todo := ids[n - 1], ids[n - 1..];
      assert id in ids && todo[0] == id && todo[1..] == ids[n..];
      ValidateNext(g, ids, n);
      ValidateOneLeads(cfg, max, f, w, g1, id, todo, kept1);
    }
  }

  // ---- Persisting ----

  lemma {:induction false} EventsAtAppend(log: seq<Body>, a: seq<nat>, b: seq<nat>)
    ensures EventsAt(log, a + b) == EventsAt(log, a) + EventsAt(log, b)
  {
    if b == [] {
      assert a + b == a;
    } else {
      EventsAtAppend(log, a, b[..|b| - 1]);
      assert (a + b)[..|a + b| - 1] == a + b[..|b| - 1];
    }
  }

  /** What the detectors produced for an entry's event. */
  function OutputsOf(outputs: map<nat, seq<Result>>, id: nat): seq<Result> {
    if id in outputs then outputs[id] else []
  }

  /** The effects of fusing one entry's event. */
  function FusedOne(cfg: Config, log: seq<Body>, outputs: map<nat, seq<Result>>, w: nat, e: Effects, id: nat): Effects
    requires cfg.Valid() && w < |e.minds|
  {
    if id < |log| && log[id].Good? then
      var (mind, out) := FusionRuns.Step(cfg, e.minds[w], TickOf(log, id, OutputsOf(outputs, id)));
      Effects(e.applied + {id}, e.minds[w := mind], Applied(e.tables, out))
    else e.(applied := e.applied + {id})
  }

  /** The effects of fusing the events of some entries, in order. */
  function FusedAll(cfg: Config, log: seq<Body>, outputs: map<nat, seq<Result>>, w: nat, e: Effects, ids: seq<nat>)
    : (r: Effects)
    requires cfg.Valid() && w < |e.minds|
    ensures |r.minds| == |e.minds|
  {
    if ids == [] then e
    else FusedOne(cfg, log, outputs, w, FusedAll(cfg, log, outputs, w, e, ids[..|ids| - 1]), ids[|ids| - 1])
  }

  lemma {:induction false} FusedOneMore(cfg: Config, log: seq<Body>, outputs: map<nat, seq<Result>>, w: nat, e: Effects,
                                        ids: seq<nat>, n: nat)
    requires cfg.Valid() && w < |e.minds| && n < |ids|
    ensures FusedAll(cfg, log, outputs, w, e, ids[..n + 1]) ==
            FusedOne(cfg, log, outputs, w, FusedAll(cfg, log, outputs, w, e, ids[..n]), ids[n])
  {
    assert ids[..n + 1][..n] == ids[..n];
  }

  lemma {:induction false} FusedAppend(cfg: Config, log: seq<Body>, outputs: map<nat, seq<Result>>, w: nat, e: Effects,
                                       a: seq<nat>, b: seq<nat>)
    requires cfg.Valid() && w < |e.minds|
    ensures FusedAll(cfg, log, outputs, w, e, a + b) ==
            FusedAll(cfg, log, outputs, w, FusedAll(cfg, log, outputs, w, e, a), b)
  {
    if b == [] {
      assert a + b == a;
    } else {
      FusedAppend(cfg, log, outputs, w, e, a, b[..|b| - 1]);
      assert (a + b)[..|a + b| - 1] == a + b[..|b| - 1];
    }
  }

  /** The effects of driving worker `w` through some steps that apply the entries `ids`. */
  function Driven(cfg: Config, w: nat, e: Effects, ids: set<nat>, ticks: seq<Tick>): Effects
    requires cfg.Valid() && w < |e.minds|
  {
    var (mind, tables) := Drive(cfg, e.minds[w], e.tables, ticks);
    Effects(e.applied + ids, e.minds[w := mind], tables)
  }

  function TicksFor(log: seq<Body>, outputs: map<nat, seq<Result>>, id: nat): seq<Tick> {
    if id < |log| && log[id].Good? then [TickOf(log, id, OutputsOf(outputs, id))] else []
  }

  lemma {:induction false} DrivenOneMore(cfg: Config, log: seq<Body>, outputs: map<nat, seq<Result>>, w: nat,
                                         e: Effects, ids: set<nat>, ticks: seq<Tick>, id: nat)
    requires cfg.Valid() && w < |e.minds|
    ensures FusedOne(cfg, log, outputs, w, Driven(cfg, w, e, ids, ticks), id) ==
            Driven(cfg, w, e, ids + {id}, ticks + TicksFor(log, outputs, id))
  {
    assert e.applied + ids + {id} == e.applied + (ids + {id});
    if id < |log| && log[id].Good? {
      var tick := TickOf(log, id, OutputsOf(outputs, id));
      assert (ticks + [tick])[..|ticks|] == ticks;
    } else {
      assert ticks + [] == ticks;
    }
  }

  /** Fusing the events of a batch is driving the pipeline through them: the same fusion state and the same tables. */
  lemma {:induction false} FusedIsDriven(cfg: Config, log: seq<Body>, outputs: map<nat, seq<Result>>, w: nat,
                                         e: Effects, ids: seq<nat>)
    requires cfg.Valid() && w < |e.minds|
    ensures FusedAll(cfg, log, outputs, w, e, ids) ==
            Driven(cfg, w, e, ToSet(ids), TicksOf(ItemsAt(log, ids, outputs)))
  {
    if ids == [] {
      assert e.applied + ToSet(ids) == e.applied && e.minds[w := e.minds[w]] == e.minds;
    } else {
      var front, id := ids[..|ids| - 1], ids[|ids| - 1];
      FusedIsDriven(cfg, log, outputs, w, e, front);
      assert ids == front + [id] && ToSet(ids) == ToSet(front) + {id};
      OneMoreTickOf(log, ids, outputs);
      DrivenOneMore(cfg, log, outputs, w, e, ToSet(front), TicksOf(ItemsAt(log, front, outputs)), id);
    }
  }

  lemma {:induction false} OneMoreTickOf(log: seq<Body>, ids: seq<nat>, outputs: map<nat, seq<Result>>)
    requires ids != []
    ensures var (front, id) := (ids[..|ids| - 1], ids[|ids| - 1]);
            TicksOf(ItemsAt(log, ids, outputs)) ==
            TicksOf(ItemsAt(log, front, outputs)) + TicksFor(log, outputs, id)
  {
    var (front, id) := (ids[..|ids| - 1], ids[|ids| - 1]);
    var items := ItemsAt(log, front, outputs);
    if id < |log| && log[id].Good? {
      var item := Item(log[id].event, OutputsOf(outputs, id));
      assert ItemsAt(log, ids, outputs) == items + [item] && (items + [item])[..|items|] == items;
    } else {
      assert items + [] == items && TicksOf(items) + [] == TicksOf(items);
    }
  }

  /** Fusing one event of a chunk is one step. */
  lemma {:induction false} FuseOneLeads(cfg: Config, max: nat, f: Fleet, w: nat, g: Group, t: map<nat, Event>,
                                        e: Effects, e': Effects, outputs: map<nat, seq<Result>>, rest: seq<nat>,
                                        batch: seq<nat>, n: nat)
    requires Manned(cfg, f, w, e) && g.Valid() && n < ChunkOf(rest)
    requires e' == FusedOne(cfg, g.log, outputs, w, e, rest[n])
    requires Leads(cfg, max, f, With(f, g, t, e, w, Persisting(rest, n, batch)))
    ensures Leads(cfg, max, f, With(f, g, t, e', w, Persisting(rest, n + 1, batch)))
  {
    var mid, act := With(f, g, t, e, w, Persisting(rest, n, batch)), Act(FuseNext(w), OutputsOf(outputs, rest[n]));
    LeadsStep(cfg, max, f, mid, act);
    AppliedNothing(mid.tables);
    assert After(cfg, max, mid, act) == With(f, g, t, e', w, Persisting(rest, n + 1, batch));
  }

  /** The events of a chunk are fused one by one. */
  lemma {:induction false} FuseLeads(cfg: Config, max: nat, f: Fleet, w: nat, g: Group, t: map<nat, Event>, e: Effects,
                                     outputs: map<nat, seq<Result>>, rest: seq<nat>, batch: seq<nat>, n: nat)
    requires Manned(cfg, f, w, e) && g.Valid() && n <= ChunkOf(rest)
    requires Leads(cfg, max, f, With(f, g, t, e, w, Persisting(rest, 0, batch)))
    ensures Leads(cfg, max, f, With(f, g, t, FusedAll(cfg, g.log, outputs, w, e, rest[..n]), w,
                                    Persisting(rest, n, batch)))
  {
    if n == 0 {
      assert rest[..0] == [];
    } else {
      FuseLeads(cfg, max, f, w, g, t, e, outputs, rest, batch, n - 1);
      FusedOneMore(cfg, g.log, outputs, w, e, rest, n - 1);
      FuseOneLeads(cfg, max, f, w, g, t, FusedAll(cfg, g.log, outputs, w, e, rest[..n - 1]),
                   FusedAll(cfg, g.log, outputs, w, e, rest[..n]), outputs, rest, batch, n - 1);
    }
  }

  /** One chunk fused and stored. */
  lemma {:induction false} ChunkLeads(cfg: Config, max: nat, f: Fleet, w: nat, g: Group, t: map<nat, Event>, e: Effects,
                                      outputs: map<nat, seq<Result>>, rest: seq<nat>, batch: seq<nat>, k: nat)
    requires Manned(cfg, f, w, e) && g.Valid() && rest != [] && k == ChunkOf(rest)
    requires Leads(cfg, max, f, With(f, g, t, e, w, Persisting(rest, 0, batch)))
    ensures Leads(cfg, max, f, With(f, g, AddEvents(t, EventsAt(g.log, rest[..k])),
                                    FusedAll(cfg, g.log, outputs, w, e, rest[..k]), w, Persisting(rest[k..], 0, batch)))
  {
    FuseLeads(cfg, max, f, w, g, t, e, outputs, rest, batch, k);
    TableLeads(cfg, max, f, w, g, t, FusedAll(cfg, g.log, outputs, w, e, rest[..k]), Persisting(rest, k, batch),
               PersistChunk(w), g, AddEvents(t, EventsAt(g.log, rest[..k])), Persisting(rest[k..], 0, batch));
  }

  lemma {:induction false} ChunkAndRest(cfg: Config, outputs: map<nat, seq<Result>>, w: nat, log: seq<Body>,
                                        t: map<nat, Event>, e: Effects, rest: seq<nat>, k: nat)
    requires cfg.Valid() && w < |e.minds| && k <= |rest|
    ensures AddEvents(AddEvents(t, EventsAt(log, rest[..k])), EventsAt(log, rest[k..])) ==
            AddEvents(t, EventsAt(log, rest))
    ensures FusedAll(cfg, log, outputs, w, FusedAll(cfg, log, outputs, w, e, rest[..k]), rest[k..]) ==
            FusedAll(cfg, log, outputs, w, e, rest)
  {
    assert rest == rest[..k] + rest[k..];
    EventsAtAppend(log, rest[..k], rest[k..]);
    AddAppend(t, EventsAt(log, rest[..k]), EventsAt(log, rest[k..]));
    FusedAppend(cfg, log, outputs, w, e, rest[..k], rest[k..]);
  }

  /** Chunk by chunk, everything is fused and stored. */
  lemma {:induction false} PersistLeads(cfg: Config, max: nat, f: Fleet, w: nat, g: Group, t: map<nat, Event>,
                                        e: Effects, outputs: map<nat, seq<Result>>, rest: seq<nat>, batch: seq<nat>)
    requires Manned(cfg, f, w, e) && g.Valid()
    requires Leads(cfg, max, f, With(f, g, t, e, w, Persisting(rest, 0, batch)))
    ensures Leads(cfg, max, f, With(f, g, AddEvents(t, EventsAt(g.log, rest)),
                                    FusedAll(cfg, g.log, outputs, w, e, rest), w, Persisting([], 0, batch)))
    decreases |rest|
  {
    if rest != [] {
      var k := ChunkOf(rest);
      ChunkLeads(cfg, max, f, w, g, t, e, outputs, rest, batch, k);
      PersistLeads(cfg, max, f, w, g, AddEvents(t, EventsAt(g.log, rest[..k])),
                   FusedAll(cfg, g.log, outputs, w, e, rest[..k]), outputs, rest[k..], batch);
      ChunkAndRest(cfg, outputs, w, g.log, t, e, rest, k);
    }
  }

  /** The effects of working through a decoded batch. */
  function Worked(cfg: Config, outputs: map<nat, seq<Result>>, w: nat, e: Effects, g: Group, batch: seq<nat>): Effects
    requires cfg.Valid() && w < |e.minds|
  {
    var (h, good) := ValidateAll(g, batch);
    FusedAll(cfg, h.log, outputs, w, e, ByEpoch(h.log, good))
  }

  /** From a validated batch to the end of the turn, in whatever order it is run. */
  lemma {:induction false} AckLeads(cfg: Config, max: nat, f: Fleet, w: nat, g: Group, outputs: map<nat, seq<Result>>,
                                    order: seq<nat>, good: seq<nat>)
    requires Manned(cfg, f, w, Own(f)) && g.Valid() && multiset(order) == multiset(good)
    requires Leads(cfg, max, f, At(f, g, w, Validating([], good)))
    ensures Leads(cfg, max, f, With(f, XAck(g, good), AddEvents(f.s.table, EventsAt(g.log, order)),
                                    FusedAll(cfg, g.log, outputs, w, Own(f), order), w, Idle))
  {
    StepLeads(cfg, max, f, w, g, Validating([], good), BeginPersist(w, order), g, Persisting(order, 0, good));
    PersistLeads(cfg, max, f, w, g, f.s.table, Own(f), outputs, order, good);
    var t', e' := AddEvents(f.s.table, EventsAt(g.log, order)), FusedAll(cfg, g.log, outputs, w, Own(f), order);
    TableLeads(cfg, max, f, w, g, t', e', Persisting([], 0, good), Ack(w), XAck(g, good), t', Idle);
  }

  /** From a decoded batch to the end of the turn. */
  lemma {:induction false} FinishLeads(cfg: Config, max: nat, f: Fleet, w: nat, g: Group,
                                       outputs: map<nat, seq<Result>>, batch: seq<nat>)
    requires Manned(cfg, f, w, Own(f)) && g.Valid() && InLog(g, batch)
    requires Leads(cfg, max, f, At(f, g, w, Decoding([], batch)))
    ensures var (g', t') := Finished(g, f.s.table, batch);
            g'.Valid() && Leads(cfg, max, f, With(f, g', t', Worked(cfg, outputs, w, Own(f), g, batch), w, Idle))
  {
    StepLeads(cfg, max, f, w, g, Decoding([], batch), DecodeOne(w), g, Validating(batch, []));
    ValidateLeads(cfg, max, f, w, g, batch, |batch|);
    assert batch[..|batch|] == batch && batch[|batch|..] == [];
    var (g', good) := ValidateAll(g, batch);
    ByEpochSorts(g'.log, good);
    AckLeads(cfg, max, f, w, g', outputs, ByEpoch(g'.log, good), good);
  }

  lemma SameElements(a: seq<nat>, b: seq<nat>)
    requires multiset(a) == multiset(b)
    ensures ToSet(a) == ToSet(b)
  {
    forall x ensures x in a <==> x in b {
      assert x in multiset(a) <==> x in multiset(b);
    }
  }

  // ---- Reading and reclaiming ----

  lemma AllDecoded(cfg: Config, max: nat, f: Fleet, w: nat, g: Group, ids: seq<nat>)
    requires Manned(cfg, f, w, Own(f)) && g.Valid() && InLog(g, ids)
    requires Leads(cfg, max, f, At(f, g, w, Decoding(ids, [])))
    ensures var (g', batch) := DecodeAll(g, ids);
            g'.Valid() && InLog(g', batch) && Leads(cfg, max, f, At(f, g', w, Decoding([], batch)))
  {
    DecodeLeads(cfg, max, f, w, g, ids, |ids|);
    DecodeFrame(g, ids);
    assert ids[..|ids|] == ids && ids[|ids|..] == [];
  }

  lemma ReadLeads(cfg: Config, max: nat, f: Fleet, w: nat, size: nat)
    requires Manned(cfg, f, w, Own(f)) && f.s.group.Valid() && f.s.workers[w] == REST
    ensures var (g, batch) := ReadBatch(f.s.group, size);
            g.Valid() && InLog(g, batch) && Leads(cfg, max, f, At(f, g, w, Decoding([], batch)))
  {
    LeadsNowhere(cfg, max, f);
    assert At(f, f.s.group, w, Idle) == f;
    var n := Available(f.s.group, size);
    var (g, ids) := XReadGroup(f.s.group, n);
    StepLeads(cfg, max, f, w, f.s.group, Idle, Read(w, n), g, Decoding(ids, []));
    AllDecoded(cfg, max, f, w, g, ids);
  }

  lemma {:induction false} PoisonFrom(max: nat, g: Group, ids: seq<nat>)
    requires Distinct(ids)
    ensures Distinct(PoisonIn(max, g, ids))
    ensures forall id :: id in PoisonIn(max, g, ids) <==> id in ids && id < |g.times| && g.times[id] > max
  {
    if ids != [] {
      var front := ids[..|ids| - 1];
      assert ids == front + [ids[|ids| - 1]];
      PoisonFrom(max, g, front);
    }
  }

  lemma {:induction false} ParkAllFrame(g: Group, ids: seq<nat>)
    requires g.Valid()
    ensures var g' := ParkAll(g, ids); g'.Valid() && g'.log == g.log && g'.delivered == g.delivered
  {
    if ids != [] {
      ParkAllFrame(g, ids[..|ids| - 1]);
    }
  }

  lemma {:induction false} ParkAllLeads(cfg: Config, max: nat, f: Fleet, w: nat, g: Group, poison: seq<nat>, n: nat)
    requires Manned(cfg, f, w, Own(f)) && g.Valid() && Distinct(poison) && n <= |poison|
    requires Leads(cfg, max, f, At(f, g, w, Scanned(ToSet(poison))))
    ensures ParkAll(g, poison[..n]).Valid()
    ensures Leads(cfg, max, f, At(f, ParkAll(g, poison[..n]), w, Scanned(ToSet(poison[n..]))))
  {
    ParkAllFrame(g, poison[..n]);
    if n == 0 {
      assert poison[0..] == poison && poison[..0] == [];
    } else {
      ParkAllLeads(cfg, max, f, w, g, poison, n - 1);
      ParkAllFrame(g, poison[..n - 1]);
      var id, left := poison[n - 1], poison[n - 1..];
      assert poison[..n][..n - 1] == poison[..n - 1];
      OneParked(poison, n);
      ParkLeads(cfg, max, f, w, ParkAll(g, poison[..n - 1]), Scanned(ToSet(left)), ParkPoison(w, id),
          Scanned(ToSet(poison[n..])), id, Poison);
    }
  }

  lemma OneParked(poison: seq<nat>, n: nat)
    requires Distinct(poison) && 0 < n <= |poison|
    ensures poison[n - 1] in ToSet(poison[n - 1..])
    ensures ToSet(poison[n - 1..]) - {poison[n - 1]} == ToSet(poison[n..])
  {
    var id := poison[n - 1];
    assert poison[n - 1..] == [id] + poison[n..] && id !in poison[n..];
    assert forall x :: x in poison[n - 1..] <==> x == id || x in poison[n..];
  }

  lemma ScanLeads(cfg: Config, max: nat, f: Fleet, w: nat, g: Group)
    requires Manned(cfg, f, w, Own(f)) && g.Valid() && Leads(cfg, max, f, At(f, g, w, Idle))
    ensures var poison := PoisonIn(max, g, XPendingRange(g, SCAN));
            Distinct(poison) && Leads(cfg, max, f, At(f, g, w, Scanned(ToSet(poison))))
  {
    var scan := XPendingRange(g, SCAN);
    LowestDistinct(g.pending, g.delivered, SCAN);
    PoisonFrom(max, g, scan);
    var found := OverLimit(max, g);
    assert found == ToSet(PoisonIn(max, g, scan));
    StepLeads(cfg, max, f, w, g, Idle, Scan(w), g, Scanned(found));
  }

  lemma ClaimLeads(cfg: Config, max: nat, f: Fleet, w: nat, g: Group, idle: set<nat>)
    requires Manned(cfg, f, w, Own(f)) && g.Valid() && Leads(cfg, max, f, At(f, g, w, Scanned({})))
    ensures var (g', ids) := XAutoClaim(g, idle, SCAN);
            var (g'', batch) := DecodeAll(g', ids);
            g''.Valid() && InLog(g'', batch) && Leads(cfg, max, f, At(f, g'', w, Decoding([], batch)))
  {
    var (g', ids) := XAutoClaim(g, idle, SCAN);
    StepLeads(cfg, max, f, w, g, Scanned({}), Claim(w, idle), g', Decoding(ids, []));
    AllDecoded(cfg, max, f, w, g', ids);
  }

  lemma ReclaimLeads(cfg: Config, max: nat, f: Fleet, w: nat, g: Group, idle: set<nat>)
    requires Manned(cfg, f, w, Own(f)) && g.Valid() && Leads(cfg, max, f, At(f, g, w, Idle))
    ensures var (g', batch) := Reclaimed(max, g, idle);
            g'.Valid() && InLog(g', batch) && Leads(cfg, max, f, At(f, g', w, Decoding([], batch)))
  {
    ScanLeads(cfg, max, f, w, g);
    var poison := PoisonIn(max, g, XPendingRange(g, SCAN));
    ParkAllLeads(cfg, max, f, w, g, poison, |poison|);
    assert poison[..|poison|] == poison && poison[|poison|..] == [] && ToSet(poison[|poison|..]) == {};
    ClaimLeads(cfg, max, f, w, ParkAll(g, poison), idle);
  }

  /** A whole turn of the worker loop is a path of the protocol, whatever states the other workers are in. */
  lemma {:induction false} TurnLeads(cfg: Config, max: nat, size: nat, f: Fleet, w: nat, idle: set<nat>,
                                     outputs: map<nat, seq<Result>>)
    requires Manned(cfg, f, w, Own(f)) && f.s.group.Valid() && f.s.workers[w] == REST
    ensures Leads(cfg, max, f, AfterTurn(cfg, max, size, f, w, idle, outputs))
  {
    ReadLeads(cfg, max, f, w, size);
    var (g, batch) := ReadBatch(f.s.group, size);
    if batch == [] {
      FinishLeads(cfg, max, f, w, g, outputs, []);
      assert XAck(g, []) == g;
      ReclaimLeads(cfg, max, f, w, g, idle);
      var (g1, batch1) := Reclaimed(max, g, idle);
      FinishLeads(cfg, max, f, w, g1, outputs, batch1);
    } else {
      FinishLeads(cfg, max, f, w, g, outputs, batch);
    }
  }

  /** The fleet after one turn of worker `w`. */
  function AfterTurn(cfg: Config, max: nat, size: nat, f: Fleet, w: nat, idle: set<nat>, outputs: map<nat, seq<Result>>)
    : Fleet
    requires Manned(cfg, f, w, Own(f))
  {
    var (g, batch) := Fetched(max, size, f.s.group, idle);
    var (g', t') := Finished(g, f.s.table, batch);
    With(f, g', t', Worked(cfg, outputs, w, Own(f), g, batch), w, Idle)
  }

  /** The turn leaves the fusion state and tables that the worker's loop promises. */
  lemma {:induction false} TurnApplies(cfg: Config, max: nat, size: nat, f: Fleet, w: nat, idle: set<nat>,
                                       outputs: map<nat, seq<Result>>, s': State, t': Tables)
    requires Manned(cfg, f, w, Own(f))
    requires var (g, batch) := Fetched(max, size, f.s.group, idle);
             Applies(cfg, f.minds[w], f.tables, g, batch, outputs, s', t')
    ensures var f' := AfterTurn(cfg, max, size, f, w, idle, outputs);
            f'.minds == f.minds[w := s'] && SameOutcomes(f'.tables, t')
  {
    var (g, batch) := Fetched(max, size, f.s.group, idle);
    var (h, good) := ValidateAll(g, batch);
    FusedIsDriven(cfg, h.log, outputs, w, Own(f), ByEpoch(h.log, good));
    var ticks := TicksOf(Work(g, batch, outputs));
    assert ticks + [] == ticks;
  }

  /** So a turn of the loop loses nothing: if everything acknowledged was accounted for before, it still is, and
      everything the turn acknowledged is stored and its outcome applied, or in the DLQ. */
  lemma {:induction false} TurnKeeps(cfg: Config, max: nat, size: nat, f: Fleet, w: nat, idle: set<nat>,
                                     outputs: map<nat, seq<Result>>)
    requires Manned(cfg, f, w, Own(f)) && Inv(f.s) && f.s.workers[w] == REST
    ensures var f' := AfterTurn(cfg, max, size, f, w, idle, outputs);
            Inv(f'.s) && (OnlyPublished(f.s) ==> OnlyPublished(f'.s))
  {
    TurnLeads(cfg, max, size, f, w, idle, outputs);
    LeadsKeeps(cfg, max, f, AfterTurn(cfg, max, size, f, w, idle, outputs));
  }

  /** And leaves none of its batch pending. */
  lemma {:induction false} BatchDone(g: Group, t: map<nat, Event>, batch: seq<nat>)
    ensures forall id :: id in batch ==> id !in Finished(g, t, batch).0.pending
  {
    Validated(g, batch);
  }

  lemma {:induction false} Validated(g: Group, ids: seq<nat>)
    ensures var (g', kept) := ValidateAll(g, ids);
            g'.pending <= g.pending && forall id :: id in ids ==> id in kept || id !in g'.pending
  {
    if ids != [] {
      var front := ids[..|ids| - 1];
      assert ids == front + [ids[|ids| - 1]];
      Validated(g, front);
    }
  }
}
