/** The interleaved protocol with what each worker knows and what all of them write: every worker has its own fusion
    state, lost in a crash, and the outcome of each event it fuses goes to the shared alert tables. */
module Fleets {
  import opened Common
  import opened Fusion
  import opened FusionRuns
  import opened Reports
  import opened Store
  import opened Accounting
  import opened Stream
  import Protocol
  import Crews

  /** The system, the fusion state of each worker, and the alert, audit and incident tables. */
  datatype Fleet = Fleet(s: Protocol.System, minds: seq<State>, tables: Tables)

  /** A step of the protocol; `results` is what the detectors produced if it fuses an event. */
  datatype Act = Act(step: Protocol.Step, results: seq<Result>)

  /** The entry a step fuses. */
  function EntryFused(s: Protocol.System, step: Protocol.Step): (id: Option<nat>)
    ensures id.Some? ==> id.value < |s.group.log| && s.group.log[id.value].Good?
  {
    match step
    case FuseNext(w) =>
      if w < |s.workers| && s.workers[w].phase.Persisting? && s.workers[w].phase.fused < |s.workers[w].phase.rest| then
        var id := s.workers[w].phase.rest[s.workers[w].phase.fused];
        if id < |s.group.log| && s.group.log[id].Good? then Some(id) else None
      else None
    case _ => None
  }

  /** The pipeline step for an entry. */
  function TickOf(log: seq<Body>, id: nat, results: seq<Result>): Tick
    requires id < |log| && log[id].Good?
  {
    Tick(log[id].event.epoch, results)
  }

  ghost predicate Can(f: Fleet, a: Act) {
    |f.minds| == |f.s.workers| && f.s.group.Valid() && Protocol.Enabled(f.s, a.step)
  }

  /** What the step decides, if it fuses an event. */
  function Decided(cfg: Config, f: Fleet, a: Act): seq<Emission>
    requires cfg.Valid()
  {
    match EntryFused(f.s, a.step)
    case None => []
    case Some(id) =>
      if a.step.w < |f.minds| then Step(cfg, f.minds[a.step.w], TickOf(f.s.group.log, id, a.results)).1 else []
  }

  /** The fusion states after the step. */
  function Minds(cfg: Config, f: Fleet, a: Act): seq<State>
    requires cfg.Valid() && |f.minds| == |f.s.workers|
  {
    match EntryFused(f.s, a.step)
    case Some(id) =>
      f.minds[a.step.w := Step(cfg, f.minds[a.step.w], TickOf(f.s.group.log, id, a.results)).0]
    case None =>
      if a.step.Crash? && a.step.w < |f.minds| then f.minds[a.step.w := Initial(cfg)] else f.minds
  }

  ghost function After(cfg: Config, max: nat, f: Fleet, a: Act): Fleet
    requires cfg.Valid() && Can(f, a)
  {
    Fleet(Protocol.Next(max, f.s, a.step), Minds(cfg, f, a), Applied(f.tables, Decided(cfg, f, a)))
  }

  function Launch(cfg: Config, workers: nat, base: Tables): Fleet {
    Fleet(Protocol.Start(workers), seq(workers, _ => Initial(cfg)), base)
  }

  ghost predicate IsAct(cfg: Config, max: nat, acts: seq<Act>, fleets: seq<Fleet>, i: nat)
    requires cfg.Valid() && i < |acts| && i + 1 < |fleets|
  {
    Can(fleets[i], acts[i]) && fleets[i + 1] == After(cfg, max, fleets[i], acts[i])
  }

  ghost predicate IsFleetPath(cfg: Config, max: nat, acts: seq<Act>, fleets: seq<Fleet>)
    requires cfg.Valid()
  {
    |fleets| == |acts| + 1 && forall i :: 0 <= i < |acts| ==> IsAct(cfg, max, acts, fleets, i)
  }

  /** A run from fresh workers; `base` is what the alert tables held before. */
  ghost predicate IsFleetRun(cfg: Config, max: nat, workers: nat, base: Tables, acts: seq<Act>, fleets: seq<Fleet>)
    requires cfg.Valid()
  {
    IsFleetPath(cfg, max, acts, fleets) && fleets[0] == Launch(cfg, workers, base)
  }

  // ---- Every run is a run of the protocol ----

  function Steps(acts: seq<Act>): seq<Protocol.Step> { seq(|acts|, i requires 0 <= i < |acts| => acts[i].step) }

  function Systems(fleets: seq<Fleet>): seq<Protocol.System> {
    seq(|fleets|, i requires 0 <= i < |fleets| => fleets[i].s)
  }

  lemma {:induction false} PathOfSystems(cfg: Config, max: nat, acts: seq<Act>, fleets: seq<Fleet>)
    requires cfg.Valid() && IsFleetPath(cfg, max, acts, fleets)
    ensures Protocol.IsPath(max, Steps(acts), Systems(fleets))
  {
    var steps, states := Steps(acts), Systems(fleets);
    forall i | 0 <= i < |steps|
      ensures states[i].group.Valid() && Protocol.Enabled(states[i], steps[i])
      ensures states[i + 1] == Protocol.Next(max, states[i], steps[i])
    {
      assert IsAct(cfg, max, acts, fleets, i);
    }
  }

  // ---- Nothing decided is lost ----

  /** The `k`-th step of the run fuses the entry. */
  ghost predicate FusesAt(cfg: Config, acts: seq<Act>, fleets: seq<Fleet>, k: nat, id: nat)
    requires cfg.Valid() && k < |acts| && k < |fleets|
  {
    Can(fleets[k], acts[k]) && EntryFused(fleets[k].s, acts[k].step) == Some(id)
  }

  /** Some worker has fused the entry, and whatever it decided is in the tables. */
  ghost predicate Reported(cfg: Config, acts: seq<Act>, fleets: seq<Fleet>, i: nat, id: nat)
    requires cfg.Valid() && i < |fleets| && i <= |acts|
  {
    exists k :: 0 <= k < i && FusesAt(cfg, acts, fleets, k, id) &&
                AllWritten(fleets[i].tables, Decided(cfg, fleets[k], acts[k]))
  }

  lemma {:induction false} ReportedStays(cfg: Config, acts: seq<Act>, fleets: seq<Fleet>, i: nat, id: nat)
    requires cfg.Valid() && i + 1 < |fleets| && i < |acts| && Reported(cfg, acts, fleets, i, id)
    requires Grows(fleets[i].tables, fleets[i + 1].tables)
    ensures Reported(cfg, acts, fleets, i + 1, id)
  {
    var k :| 0 <= k < i && FusesAt(cfg, acts, fleets, k, id) &&
             AllWritten(fleets[i].tables, Decided(cfg, fleets[k], acts[k]));
    WrittenStays(fleets[i].tables, fleets[i + 1].tables, Decided(cfg, fleets[k], acts[k]));
  }

  /** The entries a step adds to those applied are the one it fuses. */
  lemma {:induction false} AppliedByFusing(max: nat, s: Protocol.System, step: Protocol.Step, id: nat)
    requires Protocol.Inv(s) && Protocol.Enabled(s, step)
    requires id in Protocol.Next(max, s, step).applied && id !in s.applied
    ensures EntryFused(s, step) == Some(id)
  {
    if step.FuseNext? {
      var me := s.workers[step.w];
      assert Protocol.WorkerOk(s, me) && me.phase.rest[me.phase.fused] in me.phase.rest;
    }
  }

  lemma {:induction false} AppliedIsReported(cfg: Config, max: nat, acts: seq<Act>, fleets: seq<Fleet>, i: nat, id: nat)
    requires cfg.Valid() && IsFleetPath(cfg, max, acts, fleets) && i < |fleets|
    requires Protocol.Inv(fleets[0].s) && fleets[0].s.applied == {} && id in fleets[i].s.applied
    ensures Reported(cfg, acts, fleets, i, id)
  {
    assert IsAct(cfg, max, acts, fleets, i - 1);
    var was := fleets[i - 1];
    AppliedWrites(was.tables, Decided(cfg, was, acts[i - 1]));
    if id in was.s.applied {
      AppliedIsReported(cfg, max, acts, fleets, i - 1, id);
      ReportedStays(cfg, acts, fleets, i - 1, id);
    } else {
      PathOfSystems(cfg, max, acts, fleets);
      Protocol.PathKeeps(max, Steps(acts), Systems(fleets), i - 1);
      AppliedByFusing(max, was.s, acts[i - 1].step, id);
      assert FusesAt(cfg, acts, fleets, i - 1, id);
    }
  }

  /** At least once, down to the tables: in every interleaving of any number of workers, crashing anywhere, each
      published entry is still to be delivered, still pending, copied to the DLQ, or has its event in the table and
      whatever alert, incident or touch some worker decided when it fused that event. */
  lemma {:induction false} NothingIsLost(cfg: Config, max: nat, workers: nat, base: Tables, acts: seq<Act>,
                                         fleets: seq<Fleet>, i: nat, id: nat)
    requires cfg.Valid() && IsFleetRun(cfg, max, workers, base, acts, fleets) && i < |fleets|
    requires id < |fleets[i].s.group.log|
    ensures var s := fleets[i].s;
            || id >= s.group.delivered
            || id in s.group.pending
            || InDlq(s.group, id)
            || (s.group.log[id].Good? && s.group.log[id].event.id in s.table && Reported(cfg, acts, fleets, i, id))
  {
    PathOfSystems(cfg, max, acts, fleets);
    Protocol.NothingIsLost(max, workers, Steps(acts), Systems(fleets), i, id);
    if id in fleets[i].s.applied {
      AppliedIsReported(cfg, max, acts, fleets, i, id);
    }
  }

  // ---- The counts of all workers together ----

  /** Everything the workers decided in the first `i` steps. */
  function Said(cfg: Config, acts: seq<Act>, fleets: seq<Fleet>, i: nat): seq<Emission>
    requires cfg.Valid() && i <= |acts| && i <= |fleets|
  {
    if i == 0 then [] else Said(cfg, acts, fleets, i - 1) + Decided(cfg, fleets[i - 1], acts[i - 1])
  }

  /** Results carry the time of their event. */
  ghost predicate Punctual(f: Fleet, a: Act) {
    match EntryFused(f.s, a.step)
    case None => true
    case Some(id) => forall r :: r in a.results ==> r.ts == f.s.group.log[id].event.epoch
  }

  ghost predicate AllPunctual(acts: seq<Act>, fleets: seq<Fleet>) {
    |acts| <= |fleets| && forall i :: 0 <= i < |acts| ==> Punctual(fleets[i], acts[i])
  }

  /** The fusion states and alert rows, as the crew of the accounting theorem. */
  function CrewOf(f: Fleet, out: seq<Emission>): Crews.Crew { Crews.Crew(f.minds, out, f.tables.alerts) }

  lemma {:induction false} AfterSound(cfg: Config, max: nat, base: Rows, f: Fleet, a: Act, out: seq<Emission>)
    requires cfg.Valid() && Positive(base) && Can(f, a) && Punctual(f, a)
    requires Crews.Sound(base, CrewOf(f, out))
    ensures Crews.Sound(base, CrewOf(After(cfg, max, f, a), out + Decided(cfg, f, a)))
  {
    match EntryFused(f.s, a.step)
    case Some(id) =>
      var tick := TickOf(f.s.group.log, id, a.results);
      Crews.NextSound(cfg, base, CrewOf(f, out), Crews.Work(a.step.w, tick));
    case None =>
      assert out + [] == out;
      if a.step.Crash? {
        Crews.NextSound(cfg, base, CrewOf(f, out), Crews.Restart(a.step.w));
      }
  }

  /** The crew is sound after `i` steps. */
  ghost predicate SoundAt(cfg: Config, base: Rows, acts: seq<Act>, fleets: seq<Fleet>, i: nat)
    requires cfg.Valid() && i <= |acts| && i < |fleets|
  {
    Crews.Sound(base, CrewOf(fleets[i], Said(cfg, acts, fleets, i)))
  }

  lemma {:induction false} ActIsSound(cfg: Config, max: nat, base: Rows, acts: seq<Act>, fleets: seq<Fleet>, i: nat)
    requires cfg.Valid() && Positive(base) && i < |acts| && i + 1 < |fleets|
    requires IsAct(cfg, max, acts, fleets, i) && Punctual(fleets[i], acts[i]) && SoundAt(cfg, base, acts, fleets, i)
    ensures SoundAt(cfg, base, acts, fleets, i + 1)
  {
    AfterSound(cfg, max, base, fleets[i], acts[i], Said(cfg, acts, fleets, i));
  }

  lemma {:induction false} LaunchSound(cfg: Config, workers: nat, base: Tables, acts: seq<Act>, fleets: seq<Fleet>)
    requires cfg.Valid() && Positive(base.alerts) && fleets != [] && fleets[0] == Launch(cfg, workers, base)
    ensures SoundAt(cfg, base.alerts, acts, fleets, 0)
  {
    Crews.FreshSound(cfg, workers, base.alerts);
  }

  lemma {:induction false} EachActIsSound(cfg: Config, max: nat, base: Rows, acts: seq<Act>, fleets: seq<Fleet>)
    requires cfg.Valid() && Positive(base) && IsFleetPath(cfg, max, acts, fleets) && AllPunctual(acts, fleets)
    ensures forall k: nat ::
              k < |acts| && SoundAt(cfg, base, acts, fleets, k) ==> SoundAt(cfg, base, acts, fleets, k + 1)
  {
    forall k: nat | k < |acts| && SoundAt(cfg, base, acts, fleets, k)
      ensures SoundAt(cfg, base, acts, fleets, k + 1)
    {
      ActIsSound(cfg, max, base, acts, fleets, k);
    }
  }

  lemma {:induction false} SoundThrough(cfg: Config, base: Rows, acts: seq<Act>, fleets: seq<Fleet>, i: nat)
    requires cfg.Valid() && i <= |acts| < |fleets| && SoundAt(cfg, base, acts, fleets, 0)
    requires forall k: nat ::
               k < |acts| && SoundAt(cfg, base, acts, fleets, k) ==> SoundAt(cfg, base, acts, fleets, k + 1)
    ensures SoundAt(cfg, base, acts, fleets, i)
  {
    StepByStep((k: nat) => k <= |acts| && SoundAt(cfg, base, acts, fleets, k), i);
  }

  lemma {:induction false} RunIsSound(cfg: Config, max: nat, workers: nat, base: Tables, acts: seq<Act>,
                                      fleets: seq<Fleet>, i: nat)
    requires cfg.Valid() && Positive(base.alerts) && i < |fleets|
    requires IsFleetRun(cfg, max, workers, base, acts, fleets) && AllPunctual(acts, fleets)
    ensures SoundAt(cfg, base.alerts, acts, fleets, i)
  {
    LaunchSound(cfg, workers, base, acts, fleets);
    EachActIsSound(cfg, max, base.alerts, acts, fleets);
    SoundThrough(cfg, base.alerts, acts, fleets, i);
  }

  /** Conservation over every interleaving: the alert table never counts more than the workers accepted, redeliveries
      included, and counts exactly that if and only if no alert any of them raised met a row already under its id. */
  lemma {:induction false} FleetAddsUpIff(cfg: Config, max: nat, workers: nat, base: Tables, acts: seq<Act>,
                                          fleets: seq<Fleet>, i: nat)
    requires cfg.Valid() && Positive(base.alerts) && i < |fleets|
    requires IsFleetRun(cfg, max, workers, base, acts, fleets) && AllPunctual(acts, fleets)
    ensures var (t, out) := (fleets[i].tables.alerts, Said(cfg, acts, fleets, i));
            && Total(t) <= Total(base.alerts) + Accepts(out)
            && (Total(t) == Total(base.alerts) + Accepts(out) <==> AllNew(base.alerts.Keys, out))
  {
    RunIsSound(cfg, max, workers, base, acts, fleets, i);
    Crews.SoundAddsUp(base.alerts, CrewOf(fleets[i], Said(cfg, acts, fleets, i)));
  }
}
