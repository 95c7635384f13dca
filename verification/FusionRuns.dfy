/** Whole runs of the fusion layer: each pipeline step expires state at the event's time and then ingests
    that event's results. */
module FusionRuns {
  import opened Common
  import opened LruMaps
  import opened Fusion
  import opened FusionHistory
  import opened FusionProofs
  import opened FusionFacts
  import opened FusionIncidents

  /** One pipeline step: the event's time and the detector results it produced. */
  datatype Tick = Tick(now: real, results: seq<Result>)

  function Step(cfg: Config, s: State, t: Tick): (State, seq<Emission>)
    requires cfg.Valid()
  {
    Ingested(cfg, Expired(cfg, s, t.now), t.results)
  }

  function Play(cfg: Config, ticks: seq<Tick>): (State, seq<Emission>)
    requires cfg.Valid()
  {
    if ticks == [] then (Initial(cfg), [])
    else
      var (s, out) := Play(cfg, ticks[..|ticks| - 1]);
      var (s', more) := Step(cfg, s, ticks[|ticks| - 1]);
      (s', out + more)
  }

  function NonShadow(rs: seq<Result>): seq<Result> {
    if rs == [] then []
    else NonShadow(rs[..|rs| - 1]) + (if rs[|rs| - 1].shadow then [] else [rs[|rs| - 1]])
  }

  /** Every result the run fused, in order. */
  function Fed(ticks: seq<Tick>): History {
    if ticks == [] then []
    else Fed(ticks[..|ticks| - 1]) + NonShadow(ticks[|ticks| - 1].results)
  }

  /** Results carry the time of their event, and events come in time order. */
  ghost predicate InOrder(ticks: seq<Tick>) {
    && (forall i, r :: 0 <= i < |ticks| && r in ticks[i].results ==> r.ts == ticks[i].now)
    && (forall i, j :: 0 <= i < j < |ticks| ==> ticks[i].now <= ticks[j].now)
  }

  predicate NoEviction(s: State) {
    s.dedup.evictions == 0 && s.subjects.evictions == 0
  }

  /** No step pushed an entry out of a full map. `expire` starts both eviction counts afresh. */
  ghost predicate NeverFull(cfg: Config, ticks: seq<Tick>)
    requires cfg.Valid()
  {
    forall n :: 0 <= n <= |ticks| ==> NoEviction(Play(cfg, ticks[..n]).0)
  }

  lemma FuseEvictions(cfg: Config, s: State, r: Result)
    requires cfg.Valid()
    ensures FuseOne(cfg, s, r).0.dedup.evictions >= s.dedup.evictions
    ensures FuseOne(cfg, s, r).0.subjects.evictions >= s.subjects.evictions
  {
  }

  lemma IngestEvictions(cfg: Config, s: State, rs: seq<Result>)
    requires cfg.Valid()
    ensures Ingested(cfg, s, rs).0.dedup.evictions >= s.dedup.evictions
    ensures Ingested(cfg, s, rs).0.subjects.evictions >= s.subjects.evictions
  {
    if rs != [] {
      IngestEvictions(cfg, s, rs[..|rs| - 1]);
      FuseEvictions(cfg, Ingested(cfg, s, rs[..|rs| - 1]).0, rs[|rs| - 1]);
    }
  }

  lemma NonShadowAt(rs: seq<Result>, now: real)
    requires forall r :: r in rs ==> r.ts == now
    ensures forall r :: r in NonShadow(rs) ==> r in rs && !r.shadow
  {
    if rs != [] {
      NonShadowAt(rs[..|rs| - 1], now);
    }
  }

  lemma {:induction false} IngestOne(cfg: Config, s: State, rs: seq<Result>, r: Result)
    requires cfg.Valid()
    ensures Ingested(cfg, s, rs + [r]) ==
            if r.shadow then Ingested(cfg, s, rs)
            else
              var (mid, out) := Ingested(cfg, s, rs);
              var (next, e) := FuseOne(cfg, mid, r);
              (next, out + [e])
  {
    assert (rs + [r])[..|rs|] == rs;
  }

  /** The state shows the history, and the outcomes so far are its verdicts. */
  ghost predicate InStep(cfg: Config, h: History, now: real, s: State, out: seq<Emission>)
    requires cfg.Valid()
  {
    Shows(cfg, h, now, s) && Until(h, now) && out == Verdicts(cfg, h)
  }

  lemma {:induction false} FuseInStep(cfg: Config, h: History, s: State, out: seq<Emission>, r: Result)
    requires cfg.Valid() && InStep(cfg, h, r.ts, s, out) && Roomy(cfg, s, r)
    ensures InStep(cfg, h + [r], r.ts, FuseOne(cfg, s, r).0, out + [FuseOne(cfg, s, r).1])
  {
    FuseShows(cfg, h, s, r);
    assert (h + [r])[..|h|] == h;
  }

  lemma {:induction false} IngestOneMore(cfg: Config, h: History, s: State, out: seq<Emission>,
                                         front: seq<Result>, r: Result)
    requires cfg.Valid() && !r.shadow
    ensures var (mid, more) := Ingested(cfg, s, front);
            && h + NonShadow(front + [r]) == h + NonShadow(front) + [r]
            && Ingested(cfg, s, front + [r]).0 == FuseOne(cfg, mid, r).0
            && out + Ingested(cfg, s, front + [r]).1 == out + more + [FuseOne(cfg, mid, r).1]
  {
    IngestOne(cfg, s, front, r);
    assert (front + [r])[..|front|] == front;
  }

  lemma RoomSoFar(cfg: Config, s: State, front: seq<Result>, r: Result)
    requires cfg.Valid() && NoEviction(s) && NoEviction(Ingested(cfg, s, front + [r]).0)
    ensures NoEviction(Ingested(cfg, s, front).0)
    ensures !r.shadow ==> Roomy(cfg, Ingested(cfg, s, front).0, r)
  {
    IngestOne(cfg, s, front, r);
    IngestEvictions(cfg, s, front);
    FuseEvictions(cfg, Ingested(cfg, s, front).0, r);
  }

  lemma {:induction false} IngestInStep(cfg: Config, h: History, s: State, out: seq<Emission>, now: real,
                                        rs: seq<Result>)
    requires cfg.Valid() && InStep(cfg, h, now, s, out) && NoEviction(s)
    requires forall r :: r in rs ==> r.ts == now
    requires NoEviction(Ingested(cfg, s, rs).0)
    ensures InStep(cfg, h + NonShadow(rs), now, Ingested(cfg, s, rs).0, out + Ingested(cfg, s, rs).1)
  {
    if rs == [] {
      assert h + NonShadow(rs) == h && out + Ingested(cfg, s, rs).1 == out;
    } else {
      var front, r := rs[..|rs| - 1], rs[|rs| - 1];
      assert rs == front + [r];
      RoomSoFar(cfg, s, front, r);
      IngestInStep(cfg, h, s, out, now, front);
      if r.shadow {
        assert NonShadow(rs) == NonShadow(front);
      } else {
        var (mid, more) := Ingested(cfg, s, front);
        FuseInStep(cfg, h + NonShadow(front), mid, out + more, r);
        IngestOneMore(cfg, h, s, out, front, r);
      }
    }
  }

  lemma InitialShows(cfg: Config, now: real)
    requires cfg.Valid()
    ensures Shows(cfg, [], now, Initial(cfg))
  {
  }

  ghost predicate Between(ticks: seq<Tick>, now: real) {
    ticks != [] ==> ticks[|ticks| - 1].now <= now
  }

  /** Over every run in time order in which no map overflows, what comes out is the verdict of the whole
      history on each result, and the state left behind is exactly what a later result could still use. */
  lemma {:induction false} RunIsVerdicts(cfg: Config, ticks: seq<Tick>, now: real)
    requires cfg.Valid() && InOrder(ticks) && NeverFull(cfg, ticks) && Between(ticks, now)
    ensures Play(cfg, ticks).1 == Verdicts(cfg, Fed(ticks))
    ensures Shows(cfg, Fed(ticks), now, Expired(cfg, Play(cfg, ticks).0, now))
    ensures Until(Fed(ticks), now)
  {
    if ticks == [] {
      InitialShows(cfg, now);
      ExpireShows(cfg, [], now, now, Initial(cfg));
    } else {
      var front, last := ticks[..|ticks| - 1], ticks[|ticks| - 1];
      forall n | 0 <= n <= |front| ensures NoEviction(Play(cfg, front[..n]).0) {
        assert front[..n] == ticks[..n];
      }
      RunIsVerdicts(cfg, front, last.now);
      assert ticks[..|ticks|] == ticks;
      IngestInStep(cfg, Fed(front), Expired(cfg, Play(cfg, front).0, last.now), Play(cfg, front).1, last.now,
          last.results);
      ExpireShows(cfg, Fed(ticks), last.now, now, Play(cfg, ticks).0);
    }
  }

  // ---- The same theorem, in plain terms ----

  lemma FedIsTimed(ticks: seq<Tick>, now: real)
    requires InOrder(ticks) && Between(ticks, now)
    ensures Timed(Fed(ticks)) && Until(Fed(ticks), now)
  {
    if ticks != [] {
      var front, last := ticks[..|ticks| - 1], ticks[|ticks| - 1];
      FedIsTimed(front, last.now);
      NonShadowAt(last.results, last.now);
      var h, more := Fed(front), NonShadow(last.results);
      var all := Fed(ticks);
      forall i, j | 0 <= i < j < |all| ensures all[i].ts <= all[j].ts {
        assert i < |h| ==> h[i] in h;
        assert i >= |h| ==> more[i - |h|] in last.results;
        assert j >= |h| ==> more[j - |h|] in last.results;
      }
    }
  }

  /** A result's confidence with every other detector in its subject's whole window counted. */
  function WholeConfidence(cfg: Config, h: History, r: Result): real {
    FusedConfidence(cfg, r, |WholeWindow(cfg, h, r)|)
  }

  /** An earlier result of the same detector, class and entity, itself confident enough to alert, lies within
      the dedup window. */
  ghost predicate Echo(cfg: Config, h: History, r: Result) {
    exists j :: 0 <= j < |h| && SameSource(h[j], r) && r.ts - h[j].ts <= cfg.dedup
                && WholeConfidence(cfg, h[..j], h[j]) >= cfg.minConfidence
  }

  /** The `j`-th result is confident enough to alert and echoes nothing: it raises an alert. */
  ghost predicate Raises(cfg: Config, h: History, j: nat)
    requires j < |h|
  {
    WholeConfidence(cfg, h[..j], h[j]) >= cfg.minConfidence && !Echo(cfg, h[..j], h[j])
  }

  /** The alert raised at `j` is the latest of the detector, class and entity of `r`. */
  ghost predicate LatestRaised(cfg: Config, h: History, r: Result, j: nat) {
    && j < |h| && SameSource(h[j], r) && Raises(cfg, h, j)
    && forall m :: j < m < |h| && SameSource(h[m], r) ==> !Raises(cfg, h, m)
  }

  /** How many results of the detector, class and entity of `r` have been confident enough to alert. */
  function ConfidentOf(cfg: Config, h: History, r: Result): nat {
    if h == [] then 0
    else
      var front, last := h[..|h| - 1], h[|h| - 1];
      ConfidentOf(cfg, front, r) +
      (if SameSource(last, r) && WholeConfidence(cfg, front, last) >= cfg.minConfidence then 1 else 0)
  }

  /** The id of the alert a result raises, field by field. */
  function IdFor(cfg: Config, r: Result): AlertId
    requires cfg.Valid()
  {
    AlertId(Key(r.detector, r.threat, r.entity), (r.ts / cfg.dedup).Floor)
  }

  /** A touch names that latest alert and counts the confident results since, both ends included. */
  ghost predicate TouchDeserved(cfg: Config, h: History, r: Result, t: Touch)
    requires cfg.Valid()
  {
    && t.lastSeen == r.ts && t.dedupCount == t.eventCount
    && exists j: nat :: && LatestRaised(cfg, h, r, j) && t.id == IdFor(cfg, h[j])
                        && t.dedupCount == ConfidentOf(cfg, h, r) - ConfidentOf(cfg, h[..j], r) + 1
  }

  /** Everything ever fused about the subject inside the correlation window, `r` included. */
  function InView(cfg: Config, h: History, r: Result): set<Result> {
    {r} + set x | x in h && x.subject == r.subject && x.ts >= r.ts - cfg.correlation
  }

  function ClassesInView(cfg: Config, h: History, r: Result): set<ThreatClass> {
    set x | x in InView(cfg, h, r) :: x.threat
  }

  /** The higher hint, or the same hint and no less confidence. */
  predicate AtLeastAsBad(a: Result, b: Result) {
    Rank(a.hint) > Rank(b.hint) || (Rank(a.hint) == Rank(b.hint) && a.confidence >= b.confidence)
  }

  /** An incident goes with an alert exactly when two classes are in view. It carries the alert's severity and
      confidence, lists the alert last, and is named for a worst result in view. */
  ghost predicate IncidentDeserved(cfg: Config, h: History, r: Result, a: Alert, i: Option<Incident>) {
    && (i.Some? <==> |ClassesInView(cfg, h, r)| >= 2)
    && (i.Some? ==>
          var x := i.value;
          && a.incident == Some(x.id) && x.subject == r.subject && x.lastSeen == r.ts
          && x.classes == ClassesInView(cfg, h, r) && x.severity == a.severity && x.confidence == a.confidence
          && x.alertIds != [] && x.alertIds[|x.alertIds| - 1] == a.id
          && exists worst :: && worst in InView(cfg, h, r) && worst.threat == x.primary
                             && forall y :: y in InView(cfg, h, r) ==> AtLeastAsBad(worst, y))
    && (i.None? ==> a.incident.None?)
  }

  /** What one result's outcome should be, said without any state. */
  ghost predicate Deserves(cfg: Config, h: History, r: Result, e: Emission)
    requires cfg.Valid()
  {
    && (e.Quiet? <==> WholeConfidence(cfg, h, r) < cfg.minConfidence)
    && (e.Touched? <==> WholeConfidence(cfg, h, r) >= cfg.minConfidence && Echo(cfg, h, r))
    && (e.Raised? <==> WholeConfidence(cfg, h, r) >= cfg.minConfidence && !Echo(cfg, h, r))
    && (e.Touched? ==> TouchDeserved(cfg, h, r, e.touch))
    && (e.Raised? ==> AlertDeserved(cfg, h, r, e.alert) && IncidentDeserved(cfg, h, r, e.alert, e.incident))
  }

  ghost predicate AlertDeserved(cfg: Config, h: History, r: Result, a: Alert)
    requires cfg.Valid()
  {
    && a.id == IdFor(cfg, r) && a.ts == r.ts && a.subject == r.subject
    && a.contributing == WholeWindow(cfg, h, r) && a.confidence == WholeConfidence(cfg, h, r)
    && (a.fused <==> WholeWindow(cfg, h, r) != {})
    && a.severity == ScoreSeverity(r.threat, r.hint, |WholeWindow(cfg, h, r)|)
  }

  lemma EchoIsSuppressed(cfg: Config, h: History, r: Result)
    requires cfg.Valid() && cfg.correlation <= cfg.idle && Timed(h)
    ensures Echo(cfg, h, r) <==> Suppressed(cfg, h, r)
  {
    forall j | 0 <= j < |h| ensures WholeConfidence(cfg, h[..j], h[j]) == Fused(cfg, h[..j], h[j]) {
      CorroboratorsAreWhole(cfg, h[..j], h[j]);
    }
    if Echo(cfg, h, r) {
      var j :| 0 <= j < |h| && SameSource(h[j], r) && r.ts - h[j].ts <= cfg.dedup
               && WholeConfidence(cfg, h[..j], h[j]) >= cfg.minConfidence;
      assert AcceptedAt(cfg, h, j);
    }
  }

  lemma RaisesIffOpens(cfg: Config, h: History, j: nat)
    requires cfg.Valid() && cfg.correlation <= cfg.idle && Timed(h) && j < |h|
    ensures Raises(cfg, h, j) <==> OpensAt(cfg, h, j)
  {
    CorroboratorsAreWhole(cfg, h[..j], h[j]);
    OpensIff(cfg, h[..j], h[j]);
    EchoIsSuppressed(cfg, h[..j], h[j]);
  }

  lemma {:induction false} ConfidentIsAccepted(cfg: Config, h: History, r: Result)
    requires cfg.correlation <= cfg.idle && Timed(h)
    ensures ConfidentOf(cfg, h, r) == AcceptedOf(cfg, h, KeyOf(r))
  {
    if h != [] {
      var front, last := h[..|h| - 1], h[|h| - 1];
      ConfidentIsAccepted(cfg, front, r);
      CorroboratorsAreWhole(cfg, front, last);
      KeysAgreeIff(last, r);
    }
  }

  lemma TouchIsDeserved(cfg: Config, h: History, r: Result)
    requires cfg.Valid() && cfg.correlation <= cfg.idle && Timed(h) && Verdict(cfg, h, r).Touched?
    ensures TouchDeserved(cfg, h, r, Verdict(cfg, h, r).touch)
  {
    var j := TouchCounts(cfg, h, r);
    forall m | 0 <= m < |h| ensures Raises(cfg, h, m) <==> OpensAt(cfg, h, m) {
      RaisesIffOpens(cfg, h, m);
    }
    forall m | 0 <= m < |h| ensures KeyOf(h[m]) == KeyOf(r) <==> SameSource(h[m], r) {
      KeysAgreeIff(h[m], r);
    }
    ConfidentIsAccepted(cfg, h, r);
    ConfidentIsAccepted(cfg, h[..j], r);
    assert LatestRaised(cfg, h, r, j);
  }

  lemma RecentIsInView(cfg: Config, h: History, r: Result)
    requires cfg.correlation <= cfg.idle && Timed(h) && Until(h, r.ts)
    ensures forall x :: x in Recent(cfg, h, r) <==> x in InView(cfg, h, r)
    ensures Classes(Recent(cfg, h, r)) == ClassesInView(cfg, h, r)
  {
    SinceElements(Peers(cfg, h, r), r.ts - cfg.correlation);
    GenerationIsPast(cfg, h, r.subject);
    forall x | x in h && x.subject == r.subject && x.ts >= r.ts - cfg.correlation
      ensures x in Since(Peers(cfg, h, r), r.ts - cfg.correlation)
    {
      GenerationReaches(cfg, h, x, r.ts);
    }
  }

  /** The incident is named for a worst result in view. */
  lemma {:induction false} WorstInView(cfg: Config, h: History, r: Result) returns (worst: Result)
    requires cfg.correlation <= cfg.idle && Timed(h) && Until(h, r.ts)
    ensures worst in InView(cfg, h, r) && worst == Primary(Recent(cfg, h, r))
    ensures forall y :: y in InView(cfg, h, r) ==> AtLeastAsBad(worst, y)
  {
    RecentIsInView(cfg, h, r);
    worst := WorstOf(Recent(cfg, h, r));
  }

  lemma {:induction false} WorstOf(rs: seq<Result>) returns (worst: Result)
    requires rs != []
    ensures worst in rs && worst == Primary(rs)
    ensures forall y :: y in rs ==> AtLeastAsBad(worst, y)
  {
    var k := PrimaryIsWorst(rs);
    worst := rs[k];
    forall y | y in rs ensures AtLeastAsBad(worst, y) {
      var m :| 0 <= m < |rs| && rs[m] == y;
    }
  }

  /** The incident's list of alerts ends with the new one. */
  lemma {:induction false} NewAlertLast(ids: seq<AlertId>, id: AlertId)
    ensures var last := LastN(ids + [id], INCIDENT_ALERTS); last != [] && last[|last| - 1] == id
  {
  }

  lemma {:induction false} IncidentIsDeserved(cfg: Config, h: History, r: Result)
    requires cfg.Valid() && cfg.correlation <= cfg.idle && Timed(h) && Until(h, r.ts)
    ensures IncidentDeserved(cfg, h, r, AlertFor(cfg, r, Corroborators(cfg, h, r), IncidentWith(cfg, h, r)),
                             IncidentWith(cfg, h, r))
  {
    RecentIsInView(cfg, h, r);
    NewAlertLast(AlertsBefore(cfg, h, r), IdOf(cfg, r));
    var worst := WorstInView(cfg, h, r);
  }

  lemma VerdictDeserved(cfg: Config, h: History, r: Result)
    requires cfg.Valid() && cfg.correlation <= cfg.idle && Timed(h) && Until(h, r.ts)
    ensures Deserves(cfg, h, r, Verdict(cfg, h, r))
  {
    CorroboratorsAreWhole(cfg, h, r);
    OpensIff(cfg, h, r);
    EchoIsSuppressed(cfg, h, r);
    if Verdict(cfg, h, r).Touched? {
      TouchIsDeserved(cfg, h, r);
    } else {
      IncidentIsDeserved(cfg, h, r);
    }
  }

  lemma VerdictsDeserved(cfg: Config, h: History)
    requires cfg.Valid() && cfg.correlation <= cfg.idle && Timed(h)
    ensures forall i :: 0 <= i < |h| ==> Deserves(cfg, h[..i], h[i], Verdicts(cfg, h)[i])
  {
    forall i | 0 <= i < |h| ensures Deserves(cfg, h[..i], h[i], Verdicts(cfg, h)[i]) {
      VerdictsAt(cfg, h, i);
      VerdictDeserved(cfg, h[..i], h[i]);
    }
  }

  /** Each result of a run gets what the stateless account says, although every step prunes and expires. */
  lemma RunIsDeserved(cfg: Config, ticks: seq<Tick>)
    requires cfg.Valid() && cfg.correlation <= cfg.idle && InOrder(ticks) && NeverFull(cfg, ticks)
    ensures var h, out := Fed(ticks), Play(cfg, ticks).1;
            |out| == |h| && forall i :: 0 <= i < |h| ==> Deserves(cfg, h[..i], h[i], out[i])
  {
    var now := if ticks == [] then 0.0 else ticks[|ticks| - 1].now;
    RunIsVerdicts(cfg, ticks, now);
    FedIsTimed(ticks, now);
    VerdictsDeserved(cfg, Fed(ticks));
  }

  // ---- Challengers never alert ----

  function WithoutShadow(ticks: seq<Tick>): seq<Tick> {
    if ticks == [] then []
    else
      var last := ticks[|ticks| - 1];
      WithoutShadow(ticks[..|ticks| - 1]) + [last.(results := NonShadow(last.results))]
  }

  lemma {:induction false} ShadowSkipped(cfg: Config, s: State, rs: seq<Result>)
    requires cfg.Valid()
    ensures Ingested(cfg, s, rs) == Ingested(cfg, s, NonShadow(rs))
  {
    if rs != [] {
      var front, r := rs[..|rs| - 1], rs[|rs| - 1];
      ShadowSkipped(cfg, s, front);
      assert rs == front + [r];
      IngestOne(cfg, s, front, r);
      if r.shadow {
        assert NonShadow(rs) == NonShadow(front);
      } else {
        IngestOne(cfg, s, NonShadow(front), r);
      }
    }
  }

  /** Deleting every shadow result from the input changes neither what comes out nor the state, whether or
      not the maps overflow. */
  lemma {:induction false} ShadowsAreInvisible(cfg: Config, ticks: seq<Tick>)
    requires cfg.Valid()
    ensures Play(cfg, ticks) == Play(cfg, WithoutShadow(ticks))
  {
    if ticks != [] {
      var front, last := ticks[..|ticks| - 1], ticks[|ticks| - 1];
      ShadowsAreInvisible(cfg, front);
      var clean := WithoutShadow(ticks);
      assert clean[..|clean| - 1] == WithoutShadow(front);
      ShadowSkipped(cfg, Expired(cfg, Play(cfg, front).0, last.now), last.results);
    }
  }

  // ---- When the maps cannot fill ----

  /** Everything in a map is one of `ks`. */
  ghost predicate Within<K(!new), V>(m: Lru<K, V>, ks: set<K>) {
    m.Valid() && m.evictions == 0 && |ks| <= m.capacity && forall k :: k in m.order ==> k in ks
  }

  lemma FitsUnlessFull<K(!new)>(order: seq<K>, ks: set<K>, k: K)
    requires Distinct(order) && k in ks && k !in order && forall x :: x in order ==> x in ks
    ensures |order| < |ks|
  {
    DistinctSize(order);
    assert ToSet(order) <= ks - {k};
    SubsetSize(ToSet(order), ks - {k});
  }

  lemma TouchWithin<K(!new), V>(m: Lru<K, V>, ks: set<K>, k: K, v: V)
    requires Within(m, ks) && k in ks
    ensures Within(LruTouch(m, k, v), ks)
  {
    TouchValid(m, k, v);
    if k in m.values {
      WithoutElements(m.order, k);
    } else {
      FitsUnlessFull(m.order, ks, k);
    }
  }

  lemma RetainWithin<K(!new), V>(m: Lru<K, V>, ks: set<K>, keep: V -> bool)
    requires Within(m, ks)
    ensures Within(LruRetain(m, keep), ks)
  {
    RetainValid(m, keep);
    KeepElements(m.order, LruRetain(m, keep).values.Keys);
  }

  ghost predicate Room(s: State, keys: set<Key>, subjects: set<Name>) {
    Within(s.dedup, keys) && Within(s.subjects, subjects)
  }

  lemma {:induction false} FuseRoom(cfg: Config, s: State, r: Result, keys: set<Key>, subjects: set<Name>)
    requires cfg.Valid() && Room(s, keys, subjects) && KeyOf(r) in keys && r.subject in subjects
    ensures Room(FuseOne(cfg, s, r).0, keys, subjects)
  {
    TouchWithin(s.subjects, subjects, r.subject, NewSubject(r.ts));
    TouchWithin(s.dedup, keys, KeyOf(r), DedupEntry(IdOf(cfg, r), r.ts, r.ts, 1, 1));
  }

  lemma {:induction false} IngestRoom(cfg: Config, s: State, rs: seq<Result>, keys: set<Key>, subjects: set<Name>)
    requires cfg.Valid() && Room(s, keys, subjects)
    requires forall r :: r in rs ==> KeyOf(r) in keys && r.subject in subjects
    ensures Room(Ingested(cfg, s, rs).0, keys, subjects)
  {
    if rs != [] {
      var front, r := rs[..|rs| - 1], rs[|rs| - 1];
      assert rs == front + [r];
      IngestRoom(cfg, s, front, keys, subjects);
      IngestOne(cfg, s, front, r);
      if !r.shadow {
        FuseRoom(cfg, Ingested(cfg, s, front).0, r, keys, subjects);
      }
    }
  }

  lemma {:induction false} StepRoom(cfg: Config, s: State, t: Tick, keys: set<Key>, subjects: set<Name>)
    requires cfg.Valid() && Room(s, keys, subjects)
    requires forall r :: r in t.results ==> KeyOf(r) in keys && r.subject in subjects
    ensures Room(Step(cfg, s, t).0, keys, subjects)
  {
    RetainWithin(s.dedup, keys, DedupLive(t.now - cfg.dedup));
    RetainWithin(s.subjects, subjects, SubjectLive(t.now - cfg.idle));
    IngestRoom(cfg, Expired(cfg, s, t.now), t.results, keys, subjects);
  }

  /** Every result of the run has one of these keys and one of these subjects. */
  ghost predicate Among(ticks: seq<Tick>, keys: set<Key>, subjects: set<Name>) {
    forall i, r :: 0 <= i < |ticks| && r in ticks[i].results ==> KeyOf(r) in keys && r.subject in subjects
  }

  lemma {:induction false} PlayRoom(cfg: Config, ticks: seq<Tick>, keys: set<Key>, subjects: set<Name>)
    requires cfg.Valid() && |keys| <= cfg.capacity && |subjects| <= cfg.capacity && Among(ticks, keys, subjects)
    ensures Room(Play(cfg, ticks).0, keys, subjects)
  {
    if ticks != [] {
      PlayRoom(cfg, ticks[..|ticks| - 1], keys, subjects);
      StepRoom(cfg, Play(cfg, ticks[..|ticks| - 1]).0, ticks[|ticks| - 1], keys, subjects);
    }
  }

  /** With no more distinct keys and subjects than the maps have room for, no run ever fills them. */
  lemma FewNeverFill(cfg: Config, ticks: seq<Tick>, keys: set<Key>, subjects: set<Name>)
    requires cfg.Valid() && |keys| <= cfg.capacity && |subjects| <= cfg.capacity && Among(ticks, keys, subjects)
    ensures NeverFull(cfg, ticks)
  {
    forall n | 0 <= n <= |ticks| ensures NoEviction(Play(cfg, ticks[..n]).0) {
      PlayRoom(cfg, ticks[..n], keys, subjects);
    }
  }
}
