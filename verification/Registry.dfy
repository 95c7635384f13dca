/** The model registry of one detector: a status per version plus an append-only promotion log, with
    promotion, retirement and rollback. */
module Registry {
  import opened Common

  datatype Status = CANDIDATE | CHALLENGER | CHAMPION | RETIRED | REJECTED

  /** A version name; only its identity matters. */
  datatype Version = Version(id: nat)

  /** One row of the promotion log. */
  datatype Entry = Entry(version: Version, from: Option<Status>, to: Status, previous: Option<Version>)

  /** `listing` is every version, most recently trained first. */
  datatype State = State(listing: seq<Version>, status: map<Version, Status>, log: seq<Entry>)

  datatype Outcome = Done(version: Version) | AlreadyRegistered | NotRegistered | NoChampion | NothingToRollBackTo

  const EMPTY: State := State([], map[], [])

  // ---- Lookups ----

  /** The first listed version with the status. */
  function ByStatus(listing: seq<Version>, status: map<Version, Status>, s: Status): Option<Version>
    requires forall v :: v in listing ==> v in status
  {
    if listing == [] then None
    else if status[listing[0]] == s then Some(listing[0])
    else ByStatus(listing[1..], status, s)
  }

  function Champion(r: State): Option<Version>
    requires Listed(r)
  {
    ByStatus(r.listing, r.status, CHAMPION)
  }

  /** The previous champion named by the latest promotion of `v` that named one. */
  function Target(log: seq<Entry>, v: Version): Option<Version> {
    if log == [] then None
    else
      var last := log[|log| - 1];
      if last.version == v && last.to == CHAMPION && last.previous.Some? then last.previous
      else Target(log[..|log| - 1], v)
  }

  /** The status the log says `v` has. */
  function Recorded(log: seq<Entry>, v: Version): Option<Status> {
    if log == [] then None
    else if log[|log| - 1].version == v then Some(log[|log| - 1].to)
    else Recorded(log[..|log| - 1], v)
  }

  // ---- Invariants ----

  ghost predicate Listed(r: State) {
    && (forall v :: v in r.listing ==> v in r.status)
    && (forall v :: v in r.status ==> v in r.listing)
  }

  ghost predicate OneChampion(r: State) {
    forall v, w :: v in r.status && w in r.status && r.status[v] == CHAMPION && r.status[w] == CHAMPION ==> v == w
  }

  /** The log is the whole history: replaying it gives every stored status, and every row starts from
      the status the row before it for the same version left. */
  ghost predicate LogIsHistory(r: State) {
    && (forall v :: Recorded(r.log, v) == if v in r.status then Some(r.status[v]) else None)
    && (forall i :: 0 <= i < |r.log| ==> r.log[i].from == Recorded(r.log[..i], r.log[i].version))
  }

  ghost predicate PreviousRegistered(r: State) {
    forall i :: 0 <= i < |r.log| && r.log[i].previous.Some? ==>
      r.log[i].previous.value in r.status && r.log[i].previous.value != r.log[i].version
  }

  ghost predicate Valid(r: State) {
    Listed(r) && OneChampion(r) && LogIsHistory(r) && PreviousRegistered(r)
  }

  lemma ByStatusFinds(listing: seq<Version>, status: map<Version, Status>, s: Status)
    requires forall v :: v in listing ==> v in status
    ensures match ByStatus(listing, status, s)
            case Some(v) => v in listing && status[v] == s
            case None => forall v :: v in listing ==> status[v] != s
  {
    if listing != [] && status[listing[0]] != s {
      ByStatusFinds(listing[1..], status, s);
      assert forall v :: v in listing <==> v == listing[0] || v in listing[1..];
    }
  }

  /** With at most one champion, `champion()` is that one, whatever the listing order. */
  lemma ChampionIs(r: State, v: Version)
    requires Listed(r) && OneChampion(r)
    ensures Champion(r) == Some(v) <==> v in r.status && r.status[v] == CHAMPION
  {
    ByStatusFinds(r.listing, r.status, CHAMPION);
  }

  // ---- Operations ----

  function Registered(r: State, v: Version): (State, Outcome) {
    if v in r.status then (r, AlreadyRegistered)
    else (State([v] + r.listing, r.status[v := CANDIDATE], r.log + [Entry(v, None, CANDIDATE, None)]), Done(v))
  }

  /** Record one status change of one version. */
  function Record(r: State, v: Version, s: Status, previous: Option<Version>): State
    requires v in r.status
  {
    State(r.listing, r.status[v := s], r.log + [Entry(v, Some(r.status[v]), s, previous)])
  }

  /** Change a status; promoting to champion retires the incumbent first, and the record names it. */
  function Changed(r: State, v: Version, s: Status): (State, Outcome)
    requires Listed(r)
  {
    if v !in r.status then (r, NotRegistered)
    else
      var incumbent := Champion(r);
      if s == CHAMPION && incumbent.Some? && incumbent.value != v then
        ByStatusFinds(r.listing, r.status, CHAMPION);
        (Record(Record(r, incumbent.value, RETIRED, None), v, CHAMPION, incumbent), Done(v))
      else (Record(r, v, s, None), Done(v))
  }

  /** Restore the champion that the current one replaced. */
  function RolledBack(r: State): (State, Outcome)
    requires Listed(r)
  {
    match Champion(r)
    case None => (r, NoChampion)
    case Some(current) =>
      match Target(r.log, current)
      case None => (r, NothingToRollBackTo)
      case Some(target) =>
        ByStatusFinds(r.listing, r.status, CHAMPION);
        Changed(Record(r, current, RETIRED, None), target, CHAMPION)
  }

  // ---- Every operation keeps the invariants ----

  lemma {:induction false} RecordKeeps(r: State, v: Version, s: Status, previous: Option<Version>)
    requires Listed(r) && LogIsHistory(r) && PreviousRegistered(r) && v in r.status
    requires previous.Some? ==> previous.value in r.status && previous.value != v
    ensures var r' := Record(r, v, s, previous);
            Listed(r') && LogIsHistory(r') && PreviousRegistered(r')
  {
    LogGrows(r.log, Record(r, v, s, previous).log[|r.log|]);
    HistoryGrows(r, v, s, previous);
  }

  lemma {:induction false} HistoryGrows(r: State, v: Version, s: Status, previous: Option<Version>)
    requires LogIsHistory(r) && v in r.status
    ensures LogIsHistory(Record(r, v, s, previous))
  {
    var log := Record(r, v, s, previous).log;
    LogGrows(r.log, log[|r.log|]);
    forall i | 0 <= i < |log| ensures log[i].from == Recorded(log[..i], log[i].version) {
      assert log[..i] == r.log[..i];
      if i < |r.log| {
        assert log[i] == r.log[i];
      } else {
        assert r.log[..i] == r.log;
      }
    }
  }

  lemma LogGrows(log: seq<Entry>, e: Entry)
    ensures forall v :: Recorded(log + [e], v) == if v == e.version then Some(e.to) else Recorded(log, v)
    ensures forall i :: 0 <= i <= |log| ==> (log + [e])[..i] == log[..i]
    ensures forall v :: Target(log + [e], v) ==
                        if v == e.version && e.to == CHAMPION && e.previous.Some? then e.previous else Target(log, v)
  {
    assert (log + [e])[..|log|] == log;
  }

  lemma RegisterKeeps(r: State, v: Version)
    requires Valid(r)
    ensures Valid(Registered(r, v).0)
  {
    if v !in r.status {
      LogGrows(r.log, Entry(v, None, CANDIDATE, None));
      var r' := Registered(r, v).0;
      assert forall w :: w in r'.listing <==> w == v || w in r.listing;
    }
  }

  lemma RetireIncumbentKeeps(r: State, v: Version, incumbent: Version)
    requires Valid(r) && v in r.status && Champion(r) == Some(incumbent) && incumbent != v
    ensures incumbent in r.status
    ensures var r' := Record(Record(r, incumbent, RETIRED, None), v, CHAMPION, Some(incumbent));
            Valid(r') && r'.status[v] == CHAMPION
  {
    ChampionIs(r, incumbent);
    RecordKeeps(r, incumbent, RETIRED, None);
    RecordKeeps(Record(r, incumbent, RETIRED, None), v, CHAMPION, Some(incumbent));
  }

  lemma PlainChangeKeeps(r: State, v: Version, s: Status)
    requires Valid(r) && v in r.status
    requires s == CHAMPION ==> Champion(r).None? || Champion(r) == Some(v)
    ensures Valid(Record(r, v, s, None))
    ensures s != CHAMPION ==> Champion(Record(r, v, s, None)) == if Champion(r) == Some(v) then None else Champion(r)
  {
    var r' := Record(r, v, s, None);
    ByStatusFinds(r.listing, r.status, CHAMPION);
    ChampionIs(r, v);
    RecordKeeps(r, v, s, None);
    if s != CHAMPION {
      ByStatusFinds(r'.listing, r'.status, CHAMPION);
    }
  }

  /** `set_status` keeps the invariants; a promotion makes its version the champion, any other change
      leaves the champion alone unless it is the champion's own. */
  lemma SetStatusKeeps(r: State, v: Version, s: Status)
    requires Valid(r)
    ensures Valid(Changed(r, v, s).0)
    ensures v in r.status && s == CHAMPION ==> Champion(Changed(r, v, s).0) == Some(v)
    ensures v in r.status && s != CHAMPION ==>
              Champion(Changed(r, v, s).0) == if Champion(r) == Some(v) then None else Champion(r)
    ensures v !in r.status <==> Changed(r, v, s).1 == NotRegistered
  {
    if v in r.status {
      if s == CHAMPION && Champion(r).Some? && Champion(r).value != v {
        RetireIncumbentKeeps(r, v, Champion(r).value);
      } else {
        PlainChangeKeeps(r, v, s);
      }
      if s == CHAMPION {
        ChampionIs(Changed(r, v, s).0, v);
      }
    }
  }

  lemma TargetRegistered(r: State, v: Version, k: nat)
    requires PreviousRegistered(r) && k <= |r.log|
    ensures var t := Target(r.log[..k], v);
            t.Some? ==> t.value in r.status && t.value != v
  {
    if k > 0 {
      TargetRegistered(r, v, k - 1);
      assert r.log[..k][..k - 1] == r.log[..k - 1];
    }
  }

  /** A rollback that is refused changes nothing; one that goes through leaves the recorded predecessor
      as the one champion, so a detector with a champion is never left without one. */
  lemma RollbackKeeps(r: State)
    requires Valid(r)
    ensures Valid(RolledBack(r).0)
    ensures !RolledBack(r).1.Done? ==> RolledBack(r).0 == r
    ensures RolledBack(r).1.Done? <==> Champion(r).Some? && Target(r.log, Champion(r).value).Some?
    ensures RolledBack(r).1.Done? ==>
              Champion(RolledBack(r).0) == Target(r.log, Champion(r).value) == Some(RolledBack(r).1.version)
    ensures Champion(r).Some? ==> Champion(RolledBack(r).0).Some?
  {
    if Champion(r).Some? {
      var current := Champion(r).value;
      ChampionIs(r, current);
      assert r.log[..|r.log|] == r.log;
      TargetRegistered(r, current, |r.log|);
      var target := Target(r.log, current);
      if target.Some? {
        var retired := Record(r, current, RETIRED, None);
        RecordKeeps(r, current, RETIRED, None);
        SetStatusKeeps(retired, target.value, CHAMPION);
      }
    }
  }

  datatype Op = DoRegister(v: Version) | DoSetStatus(v: Version, s: Status) | DoRollback

  function Apply(r: State, op: Op): State
    requires Listed(r)
  {
    match op
    case DoRegister(v) => Registered(r, v).0
    case DoSetStatus(v, s) => Changed(r, v, s).0
    case DoRollback => RolledBack(r).0
  }

  lemma {:induction false} ApplyKeeps(r: State, op: Op)
    requires Valid(r)
    ensures Valid(Apply(r, op))
    ensures r.log <= Apply(r, op).log
  {
    ApplyAppends(r, op);
    match op
    case DoRegister(v) => RegisterKeeps(r, v);
    case DoSetStatus(v, s) => SetStatusKeeps(r, v, s);
    case DoRollback => RollbackKeeps(r);
  }

  lemma ChangeAppends(r: State, v: Version, s: Status)
    requires Listed(r)
    ensures r.log <= Changed(r, v, s).0.log
  {
  }

  /** Operations only ever append to the log. */
  lemma {:induction false} ApplyAppends(r: State, op: Op)
    requires Valid(r)
    ensures r.log <= Apply(r, op).log
  {
    match op
    case DoRegister(v) =>
    case DoSetStatus(v, s) => ChangeAppends(r, v, s);
    case DoRollback =>
      if RolledBack(r).1.Done? {
        var c := Champion(r).value;
        ByStatusFinds(r.listing, r.status, CHAMPION);
        ChangeAppends(Record(r, c, RETIRED, None), Target(r.log, c).value, CHAMPION);
      }
  }

  /** The states of a run from the empty registry. */
  ghost predicate IsRun(states: seq<State>, ops: seq<Op>) {
    && |states| == |ops| + 1 && states[0] == EMPTY
    && forall i :: 0 <= i < |ops| ==> Listed(states[i]) && states[i + 1] == Apply(states[i], ops[i])
  }

  /** Over every run of registrations, status changes and rollbacks: at most one champion, a log that is
      the whole history, and a log that only ever grows. */
  lemma {:induction false} EveryRunIsValid(states: seq<State>, ops: seq<Op>, i: nat)
    requires IsRun(states, ops) && i < |states|
    ensures Valid(states[i])
    ensures i > 0 ==> states[i - 1].log <= states[i].log
  {
    if i > 0 {
      EveryRunIsValid(states, ops, i - 1);
      ApplyKeeps(states[i - 1], ops[i - 1]);
      assert states[i] == Apply(states[i - 1], ops[i - 1]);
    }
  }

  // ---- What each operation does to every status ----

  /** The first listed version of the status. */
  lemma {:induction false} ByStatusFirst(listing: seq<Version>, status: map<Version, Status>, s: Status, i: nat)
    requires forall v :: v in listing ==> v in status
    requires i < |listing| && status[listing[i]] == s && forall k :: 0 <= k < i ==> status[listing[k]] != s
    ensures ByStatus(listing, status, s) == Some(listing[i])
  {
    if i > 0 {
      ByStatusFirst(listing[1..], status, s, i - 1);
    }
  }

  /** Registering a version already known is refused and changes nothing. */
  lemma {:induction false} RegisterRefused(r: State, v: Version)
    ensures Registered(r, v).1 == AlreadyRegistered <==> v in r.status
    ensures v in r.status ==> Registered(r, v).0 == r
  {
  }

  /** Registering a new one: a candidate at the head of the list, and its first log row. */
  lemma {:induction false} RegisterExact(r: State, v: Version)
    requires v !in r.status
    ensures var r' := Registered(r, v).0;
            && Registered(r, v).1 == Done(v)
            && r'.status == r.status[v := CANDIDATE] && r'.listing == [v] + r.listing
            && r'.log == r.log + [Entry(v, None, CANDIDATE, None)]
  {
  }

  /** The champion that promoting `v` displaces. */
  function Displaced(r: State, v: Version, s: Status): Option<Version>
    requires Listed(r)
  {
    if s == CHAMPION && Champion(r).Some? && Champion(r).value != v then Champion(r) else None
  }

  /** Changing a status: the version gets the status asked for, a displaced champion is retired, and nothing else
      changes. The log gets the displaced champion's row, if any, and then the version's own, from its old status to the
      new one. */
  lemma {:induction false} SetStatusExact(r: State, v: Version, s: Status)
    requires Valid(r) && v in r.status
    ensures var (r', displaced) := (Changed(r, v, s).0, Displaced(r, v, s));
            && Changed(r, v, s).1 == Done(v)
            && r'.listing == r.listing && r'.status.Keys == r.status.Keys && r'.status[v] == s
            && (forall w :: w in r.status && w != v ==>
                  r'.status[w] == if displaced == Some(w) then RETIRED else r.status[w])
            && r'.log == r.log
                         + (if displaced.Some? then [Entry(displaced.value, Some(CHAMPION), RETIRED, None)] else [])
                         + [Entry(v, Some(r.status[v]), s, displaced)]
  {
    if Displaced(r, v, s).Some? {
      ChampionIs(r, Displaced(r, v, s).value);
    } else {
      assert r.log + [] == r.log;
    }
  }

  /** A rollback that goes through: the champion is retired, its recorded predecessor promoted, nothing else changes,
      and the log gets a row for each. */
  lemma {:induction false} RollbackExact(r: State)
    requires Valid(r) && RolledBack(r).1.Done?
    ensures Champion(r).Some? && Target(r.log, Champion(r).value).Some?
    ensures var (r', c, t) := (RolledBack(r).0, Champion(r).value, Target(r.log, Champion(r).value).value);
            && c != t && c in r.status && t in r.status && RolledBack(r).1 == Done(t)
            && r'.listing == r.listing && r'.status == r.status[c := RETIRED][t := CHAMPION]
            && r'.log == r.log + [Entry(c, Some(CHAMPION), RETIRED, None), Entry(t, Some(r.status[t]), CHAMPION, None)]
  {
    RollbackKeeps(r);
    var c := Champion(r).value;
    ChampionIs(r, c);
    assert r.log[..|r.log|] == r.log;
    TargetRegistered(r, c, |r.log|);
    var retired := Record(r, c, RETIRED, None);
    PlainChangeKeeps(r, c, RETIRED);
    SetStatusExact(retired, Target(r.log, c).value, CHAMPION);
    RetiredThenPromoted(r, c, Target(r.log, c).value);
  }

  lemma {:induction false} RetiredThenPromoted(r: State, c: Version, t: Version)
    requires Listed(r) && c in r.status && t in r.status && c != t && r.status[c] == CHAMPION
    requires Champion(Record(r, c, RETIRED, None)).None?
    ensures var r' := Changed(Record(r, c, RETIRED, None), t, CHAMPION).0;
            && r'.status == r.status[c := RETIRED][t := CHAMPION] && r'.listing == r.listing
            && r'.log == r.log + [Entry(c, Some(CHAMPION), RETIRED, None), Entry(t, Some(r.status[t]), CHAMPION, None)]
  {
  }

  // ---- The status of a version over any run ----

  /** The status an operation asks for a version to have, if it concerns the version at all. */
  function Asked(r: State, op: Op, v: Version): Option<Status>
    requires Listed(r)
  {
    match op
    case DoRegister(u) => if u == v && v !in r.status then Some(CANDIDATE) else None
    case DoSetStatus(u, s) =>
      if u !in r.status then None
      else if u == v then Some(s)
      else if s == CHAMPION && Champion(r) == Some(v) then Some(RETIRED)
      else None
    case DoRollback =>
      if Champion(r).None? || Target(r.log, Champion(r).value).None? then None
      else if Champion(r) == Some(v) then Some(RETIRED)
      else if Target(r.log, Champion(r).value) == Some(v) then Some(CHAMPION)
      else None
  }

  function StatusOf(r: State, v: Version): Option<Status> {
    if v in r.status then Some(r.status[v]) else None
  }

  lemma {:induction false} ApplyAsked(r: State, op: Op, v: Version)
    requires Valid(r)
    ensures StatusOf(Apply(r, op), v) == if Asked(r, op, v).Some? then Asked(r, op, v) else StatusOf(r, v)
  {
    match op
    case DoRegister(u) =>
      if u !in r.status {
        RegisterExact(r, u);
      }
    case DoSetStatus(u, s) =>
      if u in r.status {
        SetStatusExact(r, u, s);
      }
    case DoRollback =>
      RollbackKeeps(r);
      if RolledBack(r).1.Done? {
        RollbackExact(r);
      }
  }

  /** Operation `k` of a run concerns the version. */
  ghost predicate AsksAt(states: seq<State>, ops: seq<Op>, k: nat, v: Version)
    requires k < |ops| && k < |states|
  {
    Listed(states[k]) && Asked(states[k], ops[k], v).Some?
  }

  /** Over any run, a version has the status last asked for it: by name, by displacement or by rollback. */
  lemma {:induction false} StatusIsLastAsked(states: seq<State>, ops: seq<Op>, k: nat, i: nat, v: Version)
    requires IsRun(states, ops) && k < i < |states| && AsksAt(states, ops, k, v)
    requires forall m :: k < m < i ==> !AsksAt(states, ops, m, v)
    ensures StatusOf(states[i], v) == Asked(states[k], ops[k], v)
  {
    EveryRunIsValid(states, ops, i - 1);
    ApplyAsked(states[i - 1], ops[i - 1], v);
    assert states[i] == Apply(states[i - 1], ops[i - 1]);
    if k < i - 1 {
      StatusIsLastAsked(states, ops, k, i - 1, v);
      assert !AsksAt(states, ops, i - 1, v);
    }
  }

  /** A version nothing was asked for is unknown. */
  lemma {:induction false} NeverAskedIsUnknown(states: seq<State>, ops: seq<Op>, i: nat, v: Version)
    requires IsRun(states, ops) && i < |states| && forall m :: 0 <= m < i ==> !AsksAt(states, ops, m, v)
    ensures v !in states[i].status
  {
    if i > 0 {
      NeverAskedIsUnknown(states, ops, i - 1, v);
      EveryRunIsValid(states, ops, i - 1);
      ApplyAsked(states[i - 1], ops[i - 1], v);
      assert states[i] == Apply(states[i - 1], ops[i - 1]) && !AsksAt(states, ops, i - 1, v);
    }
  }

  // ---- The class ----

  /** The registry of one detector, updated in place. */
  class ModelRegistry {
    var listing: seq<Version>
    var status: map<Version, Status>
    var log: seq<Entry>

    ghost function Model(): State
      reads this
    {
      State(listing, status, log)
    }

    constructor ()
      ensures Model() == EMPTY
    {
      listing, status, log := [], map[], [];
    }

    method Register(v: Version) returns (outcome: Outcome)
      modifies this
      ensures (Model(), outcome) == Registered(old(Model()), v)
    {
      if v in status {
        return AlreadyRegistered;
      }
      listing := [v] + listing;
      status := status[v := CANDIDATE];
      log := log + [Entry(v, None, CANDIDATE, None)];
      outcome := Done(v);
    }

    /** The first listed version with the status. */
    method FindByStatus(s: Status) returns (found: Option<Version>)
      requires Listed(Model())
      ensures found == ByStatus(listing, status, s)
    {
      for i := 0 to |listing|
        invariant ByStatus(listing, status, s) == ByStatus(listing[i..], status, s)
      {
        if status[listing[i]] == s {
          return Some(listing[i]);
        }
      }
      found := None;
    }

    method SetStatus(v: Version, s: Status) returns (outcome: Outcome)
      requires Listed(Model())
      modifies this
      ensures (Model(), outcome) == Changed(old(Model()), v, s)
    {
      if v !in status {
        return NotRegistered;
      }
      var from := status[v];
      var previous: Option<Version> := None;
      if s == CHAMPION {
        var incumbent := FindByStatus(CHAMPION);
        ByStatusFinds(listing, status, CHAMPION);
        if incumbent.Some? && incumbent.value != v {
          previous := incumbent;
          log := log + [Entry(incumbent.value, Some(status[incumbent.value]), RETIRED, None)];
          status := status[incumbent.value := RETIRED];
        }
      }
      status := status[v := s];
      log := log + [Entry(v, Some(from), s, previous)];
      outcome := Done(v);
    }

    /** Scan the log backwards for the promotion that made `current` replace another champion. */
    method FindTarget(current: Version) returns (target: Option<Version>)
      ensures target == Target(log, current)
    {
      target := None;
      var i := |log|;
      assert log[..i] == log;
      while i > 0
        invariant 0 <= i <= |log|
        invariant Target(log, current) == Target(log[..i], current)
      {
        i := i - 1;
        var row := log[i];
        assert log[..i + 1][..i] == log[..i];
        if row.version == current && row.to == CHAMPION && row.previous.Some? {
          return row.previous;
        }
      }
    }

    method Rollback() returns (outcome: Outcome)
      requires Valid(Model())
      modifies this
      ensures (Model(), outcome) == RolledBack(old(Model()))
    {
      var current := FindByStatus(CHAMPION);
      if current.None? {
        return NoChampion;
      }
      var target := FindTarget(current.value);
      if target.None? {
        return NothingToRollBackTo;
      }
      ChampionIs(Model(), current.value);
      var _ := SetStatus(current.value, RETIRED);
      outcome := SetStatus(target.value, CHAMPION);
    }
  }
}
