/** The fusion layer without forgetting: what the outcome of each result ought to be, as a function of the
    whole history of results before it. Nothing here is pruned, expired or evicted. */
module FusionHistory {
  import opened Common
  import opened Fusion

  /** All fused (non-shadow) results so far, in order. */
  type History = seq<Result>

  ghost predicate Timed(h: History) {
    forall i, j :: 0 <= i < j < |h| ==> h[i].ts <= h[j].ts
  }

  /** Whether activity at `ts` continues a run of results rather than following an idle gap. */
  predicate Continues(cfg: Config, run: seq<Result>, ts: real) {
    run != [] && ts - run[|run| - 1].ts <= cfg.idle
  }

  /** The results about a subject since its last idle gap. */
  function Generation(cfg: Config, h: History, subject: Name): seq<Result> {
    if h == [] then []
    else
      var before, last := Generation(cfg, h[..|h| - 1], subject), h[|h| - 1];
      if last.subject != subject then before
      else if Continues(cfg, before, last.ts) then before + [last]
      else [last]
  }

  /** The earlier results of the same run of activity as `r`. */
  function Peers(cfg: Config, h: History, r: Result): seq<Result> {
    var run := Generation(cfg, h, r.subject);
    if Continues(cfg, run, r.ts) then run else []
  }

  /** The peers inside the correlation window, with `r` itself. */
  function Recent(cfg: Config, h: History, r: Result): (rs: seq<Result>)
    ensures rs != []
  {
    Since(Peers(cfg, h, r), r.ts - cfg.correlation) + [r]
  }

  function Corroborators(cfg: Config, h: History, r: Result): set<Name> {
    Agreeing(Since(Peers(cfg, h, r), r.ts - cfg.correlation), r)
  }

  function Fused(cfg: Config, h: History, r: Result): real {
    FusedConfidence(cfg, r, |Corroborators(cfg, h, r)|)
  }

  predicate Accepted(cfg: Config, h: History, r: Result) {
    Fused(cfg, h, r) >= cfg.minConfidence
  }

  /** A run of accepted results of one key, each within the dedup window of the one before: the alert
      that opened it, when, the latest result, and how many there have been. */
  datatype Chain = Chain(id: AlertId, since: real, last: real, length: nat)

  function ChainOf(cfg: Config, h: History, key: Key): Option<Chain>
    requires cfg.Valid()
  {
    if h == [] then None
    else
      var front, r := h[..|h| - 1], h[|h| - 1];
      var before := ChainOf(cfg, front, key);
      if KeyOf(r) != key || !Accepted(cfg, front, r) then before
      else if before.Some? && r.ts - before.value.last <= cfg.dedup
      then Some(before.value.(last := r.ts, length := before.value.length + 1))
      else Some(Chain(IdOf(cfg, r), r.ts, r.ts, 1))
  }

  /** Whether `r` opens a new alert. */
  predicate Opens(cfg: Config, h: History, r: Result)
    requires cfg.Valid()
  {
    && Accepted(cfg, h, r)
    && var c := ChainOf(cfg, h, KeyOf(r));
       c.None? || r.ts - c.value.last > cfg.dedup
  }

  /** The alerts raised about a subject since its last idle gap. */
  function AlertsOf(cfg: Config, h: History, subject: Name): seq<AlertId>
    requires cfg.Valid()
    decreases |h|, 0
  {
    if h == [] then []
    else
      var front, r := h[..|h| - 1], h[|h| - 1];
      if r.subject != subject then AlertsOf(cfg, front, subject)
      else AlertsBefore(cfg, front, r) + (if Opens(cfg, front, r) then [IdOf(cfg, r)] else [])
  }

  /** The alerts of the run of activity `r` belongs to, before `r`. */
  function AlertsBefore(cfg: Config, h: History, r: Result): seq<AlertId>
    requires cfg.Valid()
    decreases |h|, 1
  {
    if Continues(cfg, Generation(cfg, h, r.subject), r.ts) then AlertsOf(cfg, h, r.subject) else []
  }

  /** The incident id of a subject's current run of activity, once there is one: drawn by the first alert
      raised while two classes were in view. */
  function IncidentOf(cfg: Config, h: History, subject: Name): Option<nat>
    requires cfg.Valid()
    decreases |h|, 0
  {
    if h == [] then None
    else
      var front, r := h[..|h| - 1], h[|h| - 1];
      if r.subject != subject then IncidentOf(cfg, front, subject)
      else
        var known := IncidentBefore(cfg, front, r);
        if Opens(cfg, front, r) && |Classes(Recent(cfg, front, r))| >= 2
        then (if known.Some? then known else Some(r.draw))
        else known
  }

  function IncidentBefore(cfg: Config, h: History, r: Result): Option<nat>
    requires cfg.Valid()
    decreases |h|, 1
  {
    if Continues(cfg, Generation(cfg, h, r.subject), r.ts) then IncidentOf(cfg, h, r.subject) else None
  }

  function StartedAt(cfg: Config, h: History, r: Result): real {
    if Peers(cfg, h, r) == [] then r.ts else Peers(cfg, h, r)[0].ts
  }

  /** The incident that goes with the alert `r` opens. */
  function IncidentWith(cfg: Config, h: History, r: Result): Option<Incident>
    requires cfg.Valid()
  {
    IncidentFor(Recent(cfg, h, r), r, Fused(cfg, h, r),
                ScoreSeverity(r.threat, r.hint, |Corroborators(cfg, h, r)|),
                IncidentBefore(cfg, h, r), AlertsBefore(cfg, h, r) + [IdOf(cfg, r)], StartedAt(cfg, h, r))
  }

  /** What the outcome of fusing `r` after the history `h` ought to be. */
  function Verdict(cfg: Config, h: History, r: Result): Emission
    requires cfg.Valid()
  {
    if !Accepted(cfg, h, r) then Quiet
    else if Opens(cfg, h, r) then
      Raised(AlertFor(cfg, r, Corroborators(cfg, h, r), IncidentWith(cfg, h, r)), IncidentWith(cfg, h, r))
    else
      var c := ChainOf(cfg, h, KeyOf(r)).value;
      Touched(Touch(c.id, r.ts, c.length + 1, c.length + 1))
  }

  function Verdicts(cfg: Config, h: History): (vs: seq<Emission>)
    requires cfg.Valid()
    ensures |vs| == |h|
  {
    if h == [] then []
    else Verdicts(cfg, h[..|h| - 1]) + [Verdict(cfg, h[..|h| - 1], h[|h| - 1])]
  }

  lemma VerdictsAt(cfg: Config, h: History, i: nat)
    requires cfg.Valid() && i < |h|
    ensures Verdicts(cfg, h)[i] == Verdict(cfg, h[..i], h[i])
  {
    if i < |h| - 1 {
      VerdictsAt(cfg, h[..|h| - 1], i);
      assert h[..|h| - 1][..i] == h[..i];
    }
  }

  // ---- What the machine's state amounts to ----

  /** The record the machine keeps for a subject that has been quiet for less than the idle time. */
  function SubjectRecord(cfg: Config, h: History, subject: Name): Subject
    requires cfg.Valid() && Generation(cfg, h, subject) != []
  {
    RecordOf(cfg, Generation(cfg, h, subject), IncidentOf(cfg, h, subject), AlertsOf(cfg, h, subject))
  }

  function RecordOf(cfg: Config, run: seq<Result>, incident: Option<nat>, alerts: seq<AlertId>): Subject
    requires run != []
  {
    var last := run[|run| - 1].ts;
    Subject(Since(run, last - cfg.correlation), incident, alerts, run[0].ts, last)
  }

  function EntryFor(c: Chain): DedupEntry {
    DedupEntry(c.id, c.since, c.last, c.length, c.length)
  }

  /** At time `now` the dedup map holds exactly the chains still open. */
  ghost predicate DedupShows(cfg: Config, h: History, now: real, dedup: map<Key, DedupEntry>)
    requires cfg.Valid()
  {
    && (forall k :: k in dedup <==> ChainOf(cfg, h, k).Some? && ChainOf(cfg, h, k).value.last >= now - cfg.dedup)
    && (forall k :: k in dedup ==> dedup[k] == EntryFor(ChainOf(cfg, h, k).value))
  }

  /** At time `now` the subject map holds exactly the subjects seen within the idle time. */
  ghost predicate SubjectsShow(cfg: Config, h: History, now: real, subjects: map<Name, Subject>)
    requires cfg.Valid()
  {
    && (forall s :: s in subjects <==> Continues(cfg, Generation(cfg, h, s), now))
    && (forall s :: s in subjects ==> subjects[s] == SubjectRecord(cfg, h, s))
  }

  ghost predicate Shows(cfg: Config, h: History, now: real, s: State)
    requires cfg.Valid()
  {
    && s.dedup.Valid() && s.subjects.Valid()
    && DedupShows(cfg, h, now, s.dedup.values)
    && SubjectsShow(cfg, h, now, s.subjects.values)
  }

  // ---- Forgetting is transparent ----

  lemma SinceAppend(a: seq<Result>, b: seq<Result>, cutoff: real)
    ensures Since(a + b, cutoff) == Since(a, cutoff) + Since(b, cutoff)
  {
    if b == [] {
      assert a + b == a;
    } else {
      SinceAppend(a, b[..|b| - 1], cutoff);
      assert (a + b)[..|a + b| - 1] == a + b[..|b| - 1];
    }
  }

  /** Pruning at an earlier time loses nothing that a later prune would keep. */
  lemma {:induction false} SinceTwice(rs: seq<Result>, c: real, c': real)
    requires c <= c'
    ensures Since(Since(rs, c), c') == Since(rs, c')
  {
    if rs != [] {
      var front, last := rs[..|rs| - 1], rs[|rs| - 1];
      SinceTwice(front, c, c');
      if last.ts >= c {
        SinceAppend(Since(front, c), [last], c');
        assert [last][..0] == [];
      } else {
        assert Since(rs, c) == Since(front, c);
      }
    }
  }

  lemma SinceOne(r: Result, cutoff: real)
    ensures Since([r], cutoff) == if r.ts >= cutoff then [r] else []
  {
    assert [r][..0] == [];
  }

  /** `expire` drops exactly what no later result could use. */
  lemma ExpireShows(cfg: Config, h: History, was: real, now: real, s: State)
    requires cfg.Valid() && Shows(cfg, h, was, s) && was <= now
    ensures Shows(cfg, h, now, Expired(cfg, s, now))
  {
    ExpiredValid(cfg, s, now);
    ExpireDedup(cfg, h, was, now, s);
    ExpireSubjects(cfg, h, was, now, s);
  }

  lemma ExpireDedup(cfg: Config, h: History, was: real, now: real, s: State)
    requires cfg.Valid() && DedupShows(cfg, h, was, s.dedup.values) && was <= now
    ensures DedupShows(cfg, h, now, Expired(cfg, s, now).dedup.values)
  {
    var d' := Expired(cfg, s, now).dedup.values;
    forall k ensures k in d' <==> ChainOf(cfg, h, k).Some? && ChainOf(cfg, h, k).value.last >= now - cfg.dedup {
      assert k in s.dedup.values ==> s.dedup.values[k] == EntryFor(ChainOf(cfg, h, k).value);
    }
  }

  lemma ExpireSubjects(cfg: Config, h: History, was: real, now: real, s: State)
    requires cfg.Valid() && SubjectsShow(cfg, h, was, s.subjects.values) && was <= now
    ensures SubjectsShow(cfg, h, now, Expired(cfg, s, now).subjects.values)
  {
    var m := Expired(cfg, s, now).subjects.values;
    forall x ensures x in m <==> Continues(cfg, Generation(cfg, h, x), now) {
      assert x in s.subjects.values ==> s.subjects.values[x] == SubjectRecord(cfg, h, x);
    }
  }

  /** Everything in a generation is a past result about the subject. */
  lemma GenerationIsPast(cfg: Config, h: History, subject: Name)
    ensures forall x :: x in Generation(cfg, h, subject) ==> x in h && x.subject == subject
  {
    if h != [] {
      GenerationIsPast(cfg, h[..|h| - 1], subject);
      assert h == h[..|h| - 1] + [h[|h| - 1]];
    }
  }

  ghost predicate Until(h: History, now: real) {
    forall x :: x in h ==> x.ts <= now
  }

  /** A record still in the map, refreshed: pruned again and never reset. */
  lemma TrackedRefresh(cfg: Config, h: History, r: Result)
    requires cfg.Valid() && Until(h, r.ts) && Continues(cfg, Generation(cfg, h, r.subject), r.ts)
    ensures var was := SubjectRecord(cfg, h, r.subject);
            Refreshed(cfg, was, r.ts) == was.(results := Since(Peers(cfg, h, r), r.ts - cfg.correlation))
  {
    var run := Generation(cfg, h, r.subject);
    GenerationIsPast(cfg, h, r.subject);
    var last := run[|run| - 1];
    assert last in run;
    SinceTwice(run, last.ts - cfg.correlation, r.ts - cfg.correlation);
  }

  /** What fusing starts from: the peers in the window, and what their run of activity has raised so far. */
  function FreshRecord(cfg: Config, h: History, r: Result, last: real): Subject
    requires cfg.Valid()
  {
    Subject(Since(Peers(cfg, h, r), r.ts - cfg.correlation), IncidentBefore(cfg, h, r), AlertsBefore(cfg, h, r),
            StartedAt(cfg, h, r), last)
  }

  /** The subject's record, refreshed for a result at the current time, is what the whole history says it
      should be, even when the map has dropped the subject. */
  lemma RefreshedIsHistory(cfg: Config, h: History, s: State, r: Result)
    requires cfg.Valid() && SubjectsShow(cfg, h, r.ts, s.subjects.values) && Until(h, r.ts)
    ensures var x := Refreshed(cfg, Known(s, r), r.ts);
            x == FreshRecord(cfg, h, r, x.lastSeen)
  {
    if r.subject in s.subjects.values {
      TrackedRefresh(cfg, h, r);
    } else {
      assert Since([], r.ts - cfg.correlation) == [];
    }
  }
}
