/** A lone worker that does not crash works through the whole stream, and the store ends up with every
    published event once. */
module Drain {
  import opened Common
  import opened Fusion
  import opened Store
  import opened Stream
  import opened Protocol
  import opened Client
  import opened ClientSteps
  import opened Fleets

  /** What each turn may reclaim, and what the detectors produce for each of its entries. */
  datatype Turn = Turn(idle: set<nat>, outputs: map<nat, seq<Result>>)

  ghost predicate IsTurn(cfg: Config, max: nat, size: nat, states: seq<Fleet>, turns: seq<Turn>, i: nat)
    requires i < |turns| && i + 1 < |states|
  {
    && Manned(cfg, states[i], 0, Own(states[i])) && |states[i].s.workers| == 1
    && states[i + 1] == AfterTurn(cfg, max, size, states[i], 0, turns[i].idle, turns[i].outputs)
  }

  /** Turns of a lone worker's loop, one after the other. */
  ghost predicate IsTurns(cfg: Config, max: nat, size: nat, states: seq<Fleet>, turns: seq<Turn>) {
    |states| == |turns| + 1 && forall i :: 0 <= i < |turns| ==> IsTurn(cfg, max, size, states, turns, i)
  }

  /** Nothing pending, and only entries that are not events in the DLQ. */
  ghost predicate Tidy(g: Group) {
    && g.Valid() && g.pending == {} && OnlyBadParked(g)
  }

  ghost predicate OnlyBadParked(g: Group) {
    forall p :: p in g.dlq ==> p.id < |g.log| && !g.log[p.id].Good?
  }

  lemma {:induction false} DecodeTidies(g: Group, ids: seq<nat>)
    requires g.Valid() && OnlyBadParked(g) && InLog(g, ids)
    ensures var (g', kept) := DecodeAll(g, ids);
            && g'.Valid() && g'.log == g.log && g'.delivered == g.delivered && OnlyBadParked(g')
            && g'.pending <= g.pending && forall id :: id in ids ==> id in kept || id !in g'.pending
  {
    if ids != [] {
      var front := ids[..|ids| - 1];
      assert ids == front + [ids[|ids| - 1]] && ids[|ids| - 1] in ids && forall id :: id in front ==> id in ids;
      DecodeTidies(g, front);
    }
  }

  lemma {:induction false} ValidateTidies(g: Group, ids: seq<nat>)
    requires g.Valid() && OnlyBadParked(g) && InLog(g, ids)
    ensures var (g', kept) := ValidateAll(g, ids);
            && g'.Valid() && g'.log == g.log && g'.delivered == g.delivered && OnlyBadParked(g')
            && g'.pending <= g.pending && forall id :: id in ids ==> id in kept || id !in g'.pending
  {
    if ids != [] {
      var front := ids[..|ids| - 1];
      assert ids == front + [ids[|ids| - 1]] && ids[|ids| - 1] in ids && forall id :: id in front ==> id in ids;
      ValidateTidies(g, front);
    }
  }

  lemma ReadTidies(g: Group, size: nat)
    requires Tidy(g)
    ensures var (g', batch) := ReadBatch(g, size);
            && g'.Valid() && g'.log == g.log && g'.delivered == g.delivered + Available(g, size) && OnlyBadParked(g')
            && g'.pending <= ToSet(batch) && InLog(g', batch)
  {
    var (g1, ids) := XReadGroup(g, Available(g, size));
    DecodeTidies(g1, ids);
    DecodeFrame(g1, ids);
  }

  lemma FinishTidies(g: Group, t: map<nat, Event>, batch: seq<nat>)
    requires g.Valid() && OnlyBadParked(g) && InLog(g, batch) && g.pending <= ToSet(batch)
    ensures var g' := Finished(g, t, batch).0; Tidy(g') && g'.log == g.log && g'.delivered == g.delivered
  {
    ValidateTidies(g, batch);
    BatchDone(g, t, batch);
  }

  /** With nothing pending there is nothing to reclaim. */
  lemma NothingToReclaim(max: nat, g: Group, idle: set<nat>)
    requires Tidy(g)
    ensures Reclaimed(max, g, idle) == (g, [])
  {
    NothingLowest(g.delivered, SCAN);
    assert XPendingRange(g, SCAN) == [];
    assert g.pending * idle == {};
    assert XAutoClaim(g, idle, SCAN).0.times == g.times;
  }

  lemma NothingLowest(bound: nat, count: nat)
    ensures Lowest({}, bound, count) == []
  {
  }

  lemma TurnTidies(max: nat, size: nat, g: Group, t: map<nat, Event>, idle: set<nat>)
    requires Tidy(g)
    ensures var (g1, batch) := Fetched(max, size, g, idle);
            var g' := Finished(g1, t, batch).0;
            && Tidy(g') && g'.log == g.log
            && (g'.delivered == |g.log| || g'.delivered >= g.delivered + size)
  {
    ReadTidies(g, size);
    var (g1, batch) := ReadBatch(g, size);
    if batch == [] {
      NothingToReclaim(max, g1, idle);
    }
    FinishTidies(g1, t, batch);
  }

  /** After `n` turns the worker has caught up, or is at least `n` entries further on. */
  ghost predicate Progressed(g: Group, g': Group, n: nat) {
    && Tidy(g') && g'.log == g.log
    && (g'.delivered == |g.log| || g'.delivered >= g.delivered + n)
  }

  lemma {:induction false} TurnProgresses(cfg: Config, max: nat, size: nat, g: Group, f: Fleet, turn: Turn, n: nat)
    requires Manned(cfg, f, 0, Own(f)) && size >= 1 && Progressed(g, f.s.group, n)
    ensures Progressed(g, AfterTurn(cfg, max, size, f, 0, turn.idle, turn.outputs).s.group, n + 1)
  {
    TurnTidies(max, size, f.s.group, f.s.table, turn.idle);
  }

  lemma {:induction false} EachProgresses(cfg: Config, max: nat, size: nat, states: seq<Fleet>, turns: seq<Turn>,
                                          g: Group)
    requires IsTurns(cfg, max, size, states, turns) && size >= 1
    ensures forall k: nat :: k < |turns| && Progressed(g, states[k].s.group, k) ==>
              Progressed(g, states[k + 1].s.group, k + 1)
  {
    forall k: nat | k < |turns| && Progressed(g, states[k].s.group, k)
      ensures Progressed(g, states[k + 1].s.group, k + 1)
    {
      assert IsTurn(cfg, max, size, states, turns, k);
      TurnProgresses(cfg, max, size, g, states[k], turns[k], k);
    }
  }

  lemma {:induction false} TurnsProgress(cfg: Config, max: nat, size: nat, states: seq<Fleet>, turns: seq<Turn>, n: nat)
    requires IsTurns(cfg, max, size, states, turns) && n < |states| && Tidy(states[0].s.group) && size >= 1
    ensures Progressed(states[0].s.group, states[n].s.group, n)
  {
    var g := states[0].s.group;
    EachProgresses(cfg, max, size, states, turns, g);
    StepByStep((k: nat) => k < |states| && Progressed(g, states[k].s.group, k), n);
  }

  /** What a lone worker's system is like between turns. */
  ghost predicate Steady(s: System) {
    Inv(s) && OnlyPublished(s) && s.workers == [REST]
  }

  lemma {:induction false} EachIsSteady(cfg: Config, max: nat, size: nat, states: seq<Fleet>, turns: seq<Turn>)
    requires IsTurns(cfg, max, size, states, turns)
    ensures forall k: nat :: k < |turns| && Steady(states[k].s) ==> Steady(states[k + 1].s)
  {
    forall k: nat | k < |turns| && Steady(states[k].s) ensures Steady(states[k + 1].s) {
      assert IsTurn(cfg, max, size, states, turns, k);
      TurnKeeps(cfg, max, size, states[k], 0, turns[k].idle, turns[k].outputs);
    }
  }

  lemma {:induction false} TurnsKeep(cfg: Config, max: nat, size: nat, states: seq<Fleet>, turns: seq<Turn>, n: nat)
    requires IsTurns(cfg, max, size, states, turns) && n < |states| && Steady(states[0].s)
    ensures Steady(states[n].s)
  {
    EachIsSteady(cfg, max, size, states, turns);
    StepByStep((k: nat) => k < |states| && Steady(states[k].s), n);
  }

  lemma {:induction false} EachLeads(cfg: Config, max: nat, size: nat, states: seq<Fleet>, turns: seq<Turn>)
    requires cfg.Valid() && IsTurns(cfg, max, size, states, turns) && Steady(states[0].s)
    ensures forall k: nat :: k < |turns| ==> Leads(cfg, max, states[k], states[k + 1])
  {
    forall k: nat | k < |turns| ensures Leads(cfg, max, states[k], states[k + 1]) {
      TurnsKeep(cfg, max, size, states, turns, k);
      assert IsTurn(cfg, max, size, states, turns, k);
      TurnLeads(cfg, max, size, states[k], 0, turns[k].idle, turns[k].outputs);
    }
  }

  /** The turns are a path of the protocol. */
  lemma {:induction false} TurnsLead(cfg: Config, max: nat, states: seq<Fleet>, n: nat)
    requires cfg.Valid() && n < |states|
    requires forall k: nat :: k + 1 < |states| ==> Leads(cfg, max, states[k], states[k + 1])
    ensures Leads(cfg, max, states[0], states[n])
  {
    if n == 0 {
      LeadsNowhere(cfg, max, states[0]);
    } else {
      TurnsLead(cfg, max, states, n - 1);
      assert Leads(cfg, max, states[n - 1], states[n - 1 + 1]);
      LeadsOn(cfg, max, states[0], states[n - 1], states[n]);
    }
  }

  /** Everything applied on the way from one state to another is in the tables of the second. */
  ghost predicate AllReported(cfg: Config, max: nat, f: Fleet, f': Fleet)
    requires cfg.Valid()
  {
    exists acts: seq<Act>, fleets: seq<Fleet> ::
      && IsFleetPath(cfg, max, acts, fleets) && fleets[0] == f && fleets[|acts|] == f'
      && forall id :: id in f'.s.applied ==> Reported(cfg, acts, fleets, |acts|, id)
  }

  lemma {:induction false} LeadsReports(cfg: Config, max: nat, f: Fleet, f': Fleet)
    requires cfg.Valid() && Leads(cfg, max, f, f') && Inv(f.s) && f.s.applied == {}
    ensures AllReported(cfg, max, f, f')
  {
    var acts: seq<Act>, fleets: seq<Fleet> :|
      IsFleetPath(cfg, max, acts, fleets) && fleets[0] == f && fleets[|acts|] == f';
    forall id | id in f'.s.applied ensures Reported(cfg, acts, fleets, |acts|, id) {
      AppliedIsReported(cfg, max, acts, fleets, |acts|, id);
    }
  }

  /** A worker alone with a stream nobody has read from yet. */
  function Unread(cfg: Config, log: seq<Body>): Fleet {
    Fleet(System(Group(log, 0, {}, [], []), map[], {}, [REST]), [Initial(cfg)], EMPTY)
  }

  /** The drain theorem: from an unread stream, as many turns as there are entries leave everything acknowledged, the
      events table exactly what inserting each published event once would give, and every outcome applied. */
  lemma {:induction false} LoneWorkerDrains(cfg: Config, max: nat, size: nat, log: seq<Body>, states: seq<Fleet>,
                                            turns: seq<Turn>, n: nat, order: seq<Event>)
    requires cfg.Valid() && IsTurns(cfg, max, size, states, turns) && states[0] == Unread(cfg, log) && n < |states|
    requires size >= 1 && n >= |log| && Derived(Events(log)) && ToSet(order) == Events(log)
    ensures var s := states[n].s;
            && Drained(s.group) && s.group.log == log && s.table == AddEvents(map[], order)
            && (forall id: nat :: id < |log| && log[id].Good? ==> id in s.applied)
    ensures AllReported(cfg, max, Unread(cfg, log), states[n])
  {
    TurnsProgress(cfg, max, size, states, turns, n);
    TurnsKeep(cfg, max, size, states, turns, n);
    var s := states[n].s;
    assert Drained(s.group);
    DrainedTable(s, order);
    forall id: nat | id < |log| && log[id].Good? ensures id in s.applied {
      assert Acked(s.group, id);
    }
    EachLeads(cfg, max, size, states, turns);
    TurnsLead(cfg, max, states, n);
    LeadsReports(cfg, max, Unread(cfg, log), states[n]);
  }
}
