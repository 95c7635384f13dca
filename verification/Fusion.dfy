/** Threat fusion: duplicate suppression, cross-detector corroboration and incident grouping, as the
    state machine `ThreatFusion` runs it. Names, entity ids and subject ids are only ever compared, so
    they are numbers here; an alert id is the tuple its digest is computed from. */
module Fusion {
  import opened Common
  import opened LruMaps

  type Name = nat

  datatype ThreatClass = BENIGN | DDOS | C2_BEACON | DGA | DNS_TUNNEL | TLS_MALWARE | RECON | EXFILTRATION

  datatype Severity = INFO | LOW | MEDIUM | HIGH | CRITICAL

  datatype Config = Config(correlation: real, dedup: real, bonus: real, maxConfidence: real, minConfidence: real,
                           idle: real, capacity: nat)
  {
    ghost predicate Valid() {
      && correlation > 0.0 && dedup > 0.0 && idle > 0.0 && 0.0 <= bonus <= 0.5
      && 0.0 < maxConfidence <= 1.0 && 0.0 <= minConfidence <= 1.0 && capacity >= 1
    }
  }

  /** A detector result. `subject` is the asset it is about; `draw` is the random id an incident first
      built while fusing this result would be given. */
  datatype Result = Result(ts: real, detector: Name, threat: ThreatClass, entity: Name, subject: Name,
                           confidence: real, hint: Severity, shadow: bool, draw: nat)

  datatype Key = Key(detector: Name, threat: ThreatClass, entity: Name)

  datatype AlertId = AlertId(key: Key, bucket: int)

  datatype Touch = Touch(id: AlertId, lastSeen: real, dedupCount: nat, eventCount: nat)

  datatype Alert = Alert(id: AlertId, ts: real, confidence: real, fused: bool, severity: Severity,
                         subject: Name, contributing: set<Name>, incident: Option<nat>)

  datatype Incident = Incident(id: nat, firstSeen: real, lastSeen: real, subject: Name, primary: ThreatClass,
                               classes: set<ThreatClass>, severity: Severity, confidence: real,
                               alertIds: seq<AlertId>, alertCount: nat)

  /** What fusing one result puts into the outcome. */
  datatype Emission = Quiet | Touched(touch: Touch) | Raised(alert: Alert, incident: Option<Incident>)

  datatype DedupEntry = DedupEntry(id: AlertId, firstSeen: real, lastSeen: real, count: nat, eventCount: nat)

  datatype Subject = Subject(results: seq<Result>, incidentId: Option<nat>, alertIds: seq<AlertId>,
                             firstSeen: real, lastSeen: real)

  datatype State = State(dedup: Lru<Key, DedupEntry>, subjects: Lru<Name, Subject>)

  // ---- Pure helpers ----

  function Rank(s: Severity): nat {
    match s case INFO => 0 case LOW => 1 case MEDIUM => 2 case HIGH => 3 case CRITICAL => 4
  }

  function Escalate(s: Severity): Severity {
    match s case INFO => LOW case LOW => MEDIUM case MEDIUM => HIGH case HIGH => CRITICAL case CRITICAL => CRITICAL
  }

  /** Impact: the detector's hint, raised to the class floor, one step up when two others agree. */
  function ScoreSeverity(threat: ThreatClass, hint: Severity, corroborators: nat): Severity {
    var floored := if threat in {C2_BEACON, EXFILTRATION, DNS_TUNNEL} && Rank(hint) < Rank(MEDIUM)
        then MEDIUM else hint;
    if corroborators >= 2 then Escalate(floored) else floored
  }

  function KeyOf(r: Result): Key { Key(r.detector, r.threat, r.entity) }

  function Bucket(cfg: Config, ts: real): int
    requires cfg.dedup > 0.0
  {
    (ts / cfg.dedup).Floor
  }

  function IdOf(cfg: Config, r: Result): AlertId
    requires cfg.dedup > 0.0
  {
    AlertId(KeyOf(r), Bucket(cfg, r.ts))
  }

  /** `_Subject.prune`: the results at or after the cutoff, in order. */
  function Since(rs: seq<Result>, cutoff: real): seq<Result> {
    if rs == [] then []
    else Since(rs[..|rs| - 1], cutoff) + (if rs[|rs| - 1].ts >= cutoff then [rs[|rs| - 1]] else [])
  }

  /** The distinct other detectors that saw a different threat class. */
  function Agreeing(rs: seq<Result>, r: Result): set<Name> {
    set x | x in rs && x.threat != r.threat && x.detector != r.detector :: x.detector
  }

  /** What agreement adds to a confidence. */
  function Bonus(cfg: Config, corroborators: nat): real {
    cfg.bonus * corroborators as real
  }

  function FusedConfidence(cfg: Config, r: Result, corroborators: nat): real {
    Min(cfg.maxConfidence, r.confidence + Bonus(cfg, corroborators))
  }

  function Classes(rs: seq<Result>): set<ThreatClass> {
    set x | x in rs :: x.threat
  }

  /** The first of the most severe results, ties broken by confidence. */
  function Primary(rs: seq<Result>): Result
    requires rs != []
  {
    if |rs| == 1 then rs[0]
    else
      var best, last := Primary(rs[..|rs| - 1]), rs[|rs| - 1];
      if Rank(last.hint) > Rank(best.hint) || (Rank(last.hint) == Rank(best.hint) && last.confidence > best.confidence)
      then last else best
  }

  const INCIDENT_ALERTS: nat := 512

  /** The incident reported with an alert, given the subject's recent results (the new one included), the
      incident id it already has, the alerts raised since its last idle gap (the new one included) and
      when that run of activity began. */
  function IncidentFor(recent: seq<Result>, r: Result, confidence: real, severity: Severity, known: Option<nat>,
                       alertIds: seq<AlertId>, firstSeen: real): Option<Incident>
    requires recent != []
  {
    if |Classes(recent)| < 2 then None
    else
      Some(Incident(
        match known case Some(id) => id case None => r.draw,
        if firstSeen == 0.0 then r.ts else Min(firstSeen, r.ts),
        r.ts, r.subject, Primary(recent).threat, Classes(recent), severity, confidence,
        LastN(alertIds, INCIDENT_ALERTS), |alertIds|))
  }

  function IncidentId(i: Option<Incident>): Option<nat> {
    match i case None => None case Some(x) => Some(x.id)
  }

  function AlertFor(cfg: Config, r: Result, names: set<Name>, incident: Option<Incident>): Alert
    requires cfg.dedup > 0.0
  {
    Alert(IdOf(cfg, r), r.ts, FusedConfidence(cfg, r, |names|), names != {}, ScoreSeverity(r.threat, r.hint, |names|),
          r.subject, names, IncidentId(incident))
  }

  // ---- The machine ----

  function Initial(cfg: Config): State {
    State(Empty(cfg.capacity), Empty(cfg.capacity))
  }

  function NewSubject(ts: real): Subject { Subject([], None, [], ts, 0.0) }

  /** Pruned to the correlation window, and reset after an idle gap. */
  function Refreshed(cfg: Config, s: Subject, ts: real): Subject {
    var pruned := s.(results := Since(s.results, ts - cfg.correlation));
    if s.lastSeen != 0.0 && ts - s.lastSeen > cfg.idle
    then pruned.(incidentId := None, alertIds := [], firstSeen := ts)
    else pruned
  }

  /** What becomes of a result once its corroborators `names` are known: dropped, folded into the open
      alert of its key, or raised as a new alert. `seen` is the subject with the result recorded. */
  function Decide(cfg: Config, dedup: Lru<Key, DedupEntry>, r: Result, names: set<Name>, seen: Subject)
    : (Lru<Key, DedupEntry>, Subject, Emission)
    requires cfg.Valid() && seen.results != []
  {
    var confidence := FusedConfidence(cfg, r, |names|);
    if confidence < cfg.minConfidence then (dedup, seen, Quiet)
    else if KeyOf(r) in dedup.values && r.ts - dedup.values[KeyOf(r)].lastSeen <= cfg.dedup then
      var open := dedup.values[KeyOf(r)];
      var entry := open.(lastSeen := r.ts, count := open.count + 1, eventCount := open.eventCount + 1);
      (LruPut(dedup, KeyOf(r), entry), seen, Touched(Touch(entry.id, r.ts, entry.count, entry.eventCount)))
    else
      var id := IdOf(cfg, r);
      var alertIds := seen.alertIds + [id];
      var incident := IncidentFor(seen.results, r, confidence, ScoreSeverity(r.threat, r.hint, |names|),
                                  seen.incidentId, alertIds, seen.firstSeen);
      (LruTouch(dedup, KeyOf(r), DedupEntry(id, r.ts, r.ts, 1, 1)),
       seen.(alertIds := alertIds, incidentId := if incident.Some? then IncidentId(incident) else seen.incidentId),
       Raised(AlertFor(cfg, r, names, incident), incident))
  }

  /** The subject's record before the result: the tracked one, or a new one. */
  function Known(s: State, r: Result): Subject {
    if r.subject in s.subjects.values then s.subjects.values[r.subject] else NewSubject(r.ts)
  }

  function FuseOne(cfg: Config, s: State, r: Result): (State, Emission)
    requires cfg.Valid()
  {
    var subject := Refreshed(cfg, Known(s, r), r.ts);
    var names := Agreeing(subject.results, r);
    var seen := subject.(results := subject.results + [r], lastSeen := r.ts);
    var (dedup, done, e) := Decide(cfg, s.dedup, r, names, seen);
    (State(dedup, StoreSubject(LruTouch(s.subjects, r.subject, NewSubject(r.ts)), r.subject, done)), e)
  }

  /** The record just touched is updated in place. */
  function StoreSubject(subjects: Lru<Name, Subject>, k: Name, s: Subject): Lru<Name, Subject> {
    if k in subjects.values then LruPut(subjects, k, s) else subjects
  }

  function OpenKeys(m: Lru<Key, DedupEntry>, cutoff: real): Lru<Key, DedupEntry> {
    LruRetain(m, DedupLive(cutoff))
  }

  function ActiveSubjects(m: Lru<Name, Subject>, cutoff: real): Lru<Name, Subject> {
    LruRetain(m, SubjectLive(cutoff))
  }

  method RetainKeys(m: Lru<Key, DedupEntry>, cutoff: real) returns (r: Lru<Key, DedupEntry>)
    requires m.Valid()
    ensures r == OpenKeys(m, cutoff) && r.Valid()
  {
    r := Rebuild(m, DedupLive(cutoff));
  }

  method RetainSubjects(m: Lru<Name, Subject>, cutoff: real) returns (r: Lru<Name, Subject>)
    requires m.Valid()
    ensures r == ActiveSubjects(m, cutoff) && r.Valid()
  {
    r := Rebuild(m, SubjectLive(cutoff));
  }

  /** `expire`: rebuild both maps with what has not gone quiet. */
  function Expired(cfg: Config, s: State, now: real): State {
    State(OpenKeys(s.dedup, now - cfg.dedup), ActiveSubjects(s.subjects, now - cfg.idle))
  }

  method Retained(cfg: Config, s: State, now: real) returns (r: State)
    requires s.dedup.Valid() && s.subjects.Valid()
    ensures r == Expired(cfg, s, now) && r.dedup.Valid() && r.subjects.Valid()
  {
    var dedup := RetainKeys(s.dedup, now - cfg.dedup);
    var subjects := RetainSubjects(s.subjects, now - cfg.idle);
    r := State(dedup, subjects);
  }

  lemma ExpiredValid(cfg: Config, s: State, now: real)
    requires s.dedup.Valid() && s.subjects.Valid()
    ensures Expired(cfg, s, now).dedup.Valid() && Expired(cfg, s, now).subjects.Valid()
  {
    RetainValid(s.dedup, DedupLive(now - cfg.dedup));
    RetainValid(s.subjects, SubjectLive(now - cfg.idle));
  }

  function DedupLive(cutoff: real): DedupEntry -> bool { (e: DedupEntry) => e.lastSeen >= cutoff }
  function SubjectLive(cutoff: real): Subject -> bool { (x: Subject) => x.lastSeen >= cutoff }

  /** `ingest`: shadow results are skipped, the rest are fused in order. */
  function Ingested(cfg: Config, s: State, rs: seq<Result>): (State, seq<Emission>)
    requires cfg.Valid()
  {
    if rs == [] then (s, [])
    else
      var (mid, out) := Ingested(cfg, s, rs[..|rs| - 1]);
      var r := rs[|rs| - 1];
      if r.shadow then (mid, out)
      else
        var (next, e) := FuseOne(cfg, mid, r);
        (next, out + [e])
  }

  /** The fusion layer of one pipeline worker. The records its maps hold are values that are written back
      where the original updates them in place. */
  class ThreatFusion {
    const cfg: Config
    var dedup: Lru<Key, DedupEntry>
    var subjects: Lru<Name, Subject>

    ghost function Model(): State
      reads this
    {
      State(dedup, subjects)
    }

    ghost predicate Valid()
      reads this
    {
      cfg.Valid() && dedup.Valid() && subjects.Valid()
    }

    constructor (cfg: Config)
      requires cfg.Valid()
      ensures Valid() && this.cfg == cfg && Model() == Initial(cfg)
    {
      this.cfg := cfg;
      dedup, subjects := Empty(cfg.capacity), Empty(cfg.capacity);
    }

    method FuseResult(r: Result) returns (e: Emission)
      requires Valid()
      modifies this
      ensures Valid() && (Model(), e) == FuseOne(cfg, old(Model()), r)
    {
      TouchValid(subjects, r.subject, NewSubject(r.ts));
      subjects := LruTouch(subjects, r.subject, NewSubject(r.ts));
      var subject := subjects.values[r.subject];
      subject := subject.(results := Since(subject.results, r.ts - cfg.correlation));
      if subject.lastSeen != 0.0 && r.ts - subject.lastSeen > cfg.idle {
        subject := subject.(incidentId := None, alertIds := [], firstSeen := r.ts);
      }
      var names := Agreeing(subject.results, r);
      subject := subject.(results := subject.results + [r], lastSeen := r.ts);
      subject, e := Judge(r, names, subject);
      subjects := LruPut(subjects, r.subject, subject);
    }

    /** The second half of fusing a result: the confidence gate, suppression, and the new alert. */
    method Judge(r: Result, names: set<Name>, seen: Subject) returns (subject: Subject, e: Emission)
      requires cfg.Valid() && dedup.Valid() && seen.results != []
      modifies this`dedup
      ensures dedup.Valid() && (dedup, subject, e) == Decide(cfg, old(dedup), r, names, seen)
    {
      subject := seen;
      var confidence := FusedConfidence(cfg, r, |names|);
      if confidence < cfg.minConfidence {
        e := Quiet;
        return;
      }
      var key := KeyOf(r);
      if key in dedup.values && r.ts - dedup.values[key].lastSeen <= cfg.dedup {
        var existing := dedup.values[key];
        existing := existing.(lastSeen := r.ts, count := existing.count + 1, eventCount := existing.eventCount + 1);
        dedup := LruPut(dedup, key, existing);
        e := Touched(Touch(existing.id, r.ts, existing.count, existing.eventCount));
        return;
      }
      var severity := ScoreSeverity(r.threat, r.hint, |names|);
      var id := IdOf(cfg, r);
      TouchValid(dedup, key, DedupEntry(id, r.ts, r.ts, 1, 1));
      dedup := LruTouch(dedup, key, DedupEntry(id, r.ts, r.ts, 1, 1));
      subject := subject.(alertIds := subject.alertIds + [id]);
      var incident := IncidentFor(subject.results, r, confidence, severity, subject.incidentId, subject.alertIds,
                                  subject.firstSeen);
      if incident.Some? {
        subject := subject.(incidentId := Some(incident.value.id));
      }
      e := Raised(AlertFor(cfg, r, names, incident), incident);
    }

    method Ingest(rs: seq<Result>) returns (out: seq<Emission>)
      requires Valid()
      modifies this
      ensures Valid() && (Model(), out) == Ingested(cfg, old(Model()), rs)
    {
      out := [];
      for i := 0 to |rs|
        invariant Valid() && (Model(), out) == Ingested(cfg, old(Model()), rs[..i])
      {
        assert rs[..i + 1][..i] == rs[..i];
        if !rs[i].shadow {
          var e := FuseResult(rs[i]);
          out := out + [e];
        }
      }
      assert rs[..|rs|] == rs;
    }

    method Expire(now: real)
      requires Valid()
      modifies this
      ensures Valid() && Model() == Expired(cfg, old(Model()), now)
    {
      var retained := Retained(cfg, State(dedup, subjects), now);
      dedup, subjects := retained.dedup, retained.subjects;
    }
  }
}
