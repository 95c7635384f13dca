/** The fusion machine agrees with the history: over every run in time order in which no map overflows,
    each emission is the verdict of the whole history, although every step throws state away. */
module FusionProofs {
  import opened Common
  import opened LruMaps
  import opened Fusion
  import opened FusionHistory

  lemma TouchWithoutEviction<K(!new), V>(m: Lru<K, V>, k: K, v: V)
    requires m.Valid() && LruTouch(m, k, v).evictions == m.evictions
    ensures LruTouch(m, k, v).values == if k in m.values then m.values else m.values[k := v]
  {
  }

  /** No touch of this step pushes an entry out of either map. */
  predicate Roomy(cfg: Config, s: State, r: Result)
    requires cfg.Valid()
  {
    var next := FuseOne(cfg, s, r).0;
    next.dedup.evictions == s.dedup.evictions && next.subjects.evictions == s.subjects.evictions
  }

  // ---- One more result ----

  lemma {:induction false} OneMoreChain(cfg: Config, h: History, r: Result, k: Key)
    requires cfg.Valid()
    ensures ChainOf(cfg, h + [r], k) ==
            if KeyOf(r) != k || !Accepted(cfg, h, r) then ChainOf(cfg, h, k)
            else if Opens(cfg, h, r) then Some(Chain(IdOf(cfg, r), r.ts, r.ts, 1))
            else Some(ChainOf(cfg, h, k).value.(last := r.ts, length := ChainOf(cfg, h, k).value.length + 1))
  {
    assert (h + [r])[..|h|] == h;
  }

  lemma {:induction false} OneMoreElsewhere(cfg: Config, h: History, r: Result, x: Name)
    requires cfg.Valid() && r.subject != x
    ensures Generation(cfg, h + [r], x) == Generation(cfg, h, x)
    ensures AlertsOf(cfg, h + [r], x) == AlertsOf(cfg, h, x)
    ensures IncidentOf(cfg, h + [r], x) == IncidentOf(cfg, h, x)
  {
    assert (h + [r])[..|h|] == h;
  }

  lemma {:induction false} OneMoreHere(cfg: Config, h: History, r: Result)
    requires cfg.Valid()
    ensures Generation(cfg, h + [r], r.subject) == Peers(cfg, h, r) + [r]
    ensures AlertsOf(cfg, h + [r], r.subject) ==
            AlertsBefore(cfg, h, r) + (if Opens(cfg, h, r) then [IdOf(cfg, r)] else [])
    ensures IncidentOf(cfg, h + [r], r.subject) ==
            if Opens(cfg, h, r) && IncidentWith(cfg, h, r).Some?
            then IncidentId(IncidentWith(cfg, h, r)) else IncidentBefore(cfg, h, r)
  {
    assert (h + [r])[..|h|] == h;
  }

  lemma {:induction false} WindowAfter(cfg: Config, h: History, r: Result)
    requires cfg.Valid()
    ensures var run := Peers(cfg, h, r) + [r];
            && Since(run, r.ts - cfg.correlation) == Recent(cfg, h, r)
            && run[|run| - 1] == r && run[0].ts == StartedAt(cfg, h, r)
  {
    SinceAppend(Peers(cfg, h, r), [r], r.ts - cfg.correlation);
    SinceOne(r, r.ts - cfg.correlation);
  }

  /** The subject's record after `r`, whatever the verdict on `r` was. */
  function RecordGiven(cfg: Config, h: History, r: Result): Subject
    requires cfg.Valid()
  {
    Subject(
      Recent(cfg, h, r),
      if Opens(cfg, h, r) && IncidentWith(cfg, h, r).Some? then IncidentId(IncidentWith(cfg, h, r))
      else IncidentBefore(cfg, h, r),
      AlertsBefore(cfg, h, r) + (if Opens(cfg, h, r) then [IdOf(cfg, r)] else []),
      StartedAt(cfg, h, r), r.ts)
  }

  lemma {:induction false} RecordAfter(cfg: Config, h: History, r: Result)
    requires cfg.Valid()
    ensures Generation(cfg, h + [r], r.subject) != []
    ensures SubjectRecord(cfg, h + [r], r.subject) == RecordGiven(cfg, h, r)
  {
    OneMoreHere(cfg, h, r);
    WindowAfter(cfg, h, r);
  }

  /** What deciding `r` is given: the subject's record with the result recorded. */
  function SeenBy(cfg: Config, h: History, r: Result): Subject
    requires cfg.Valid()
  {
    Subject(Recent(cfg, h, r), IncidentBefore(cfg, h, r), AlertsBefore(cfg, h, r), StartedAt(cfg, h, r), r.ts)
  }

  /** Deciding `r` gives its verdict, the record the history calls for, and the chain of its key. */
  ghost predicate DecidedRight(cfg: Config, h: History, dedup: Lru<Key, DedupEntry>, r: Result)
    requires cfg.Valid()
  {
    var (dedup', done, e) := Decide(cfg, dedup, r, Corroborators(cfg, h, r), SeenBy(cfg, h, r));
    && dedup'.Valid() && e == Verdict(cfg, h, r) && done == RecordGiven(cfg, h, r)
    && dedup'.values ==
         if !Accepted(cfg, h, r) then dedup.values
         else dedup.values[KeyOf(r) := EntryFor(ChainOf(cfg, h + [r], KeyOf(r)).value)]
  }

  lemma {:induction false} DecideOpens(cfg: Config, h: History, dedup: Lru<Key, DedupEntry>, r: Result)
    requires cfg.Valid() && dedup.Valid() && DedupShows(cfg, h, r.ts, dedup.values) && Opens(cfg, h, r)
    requires Decide(cfg, dedup, r, Corroborators(cfg, h, r), SeenBy(cfg, h, r)).0.evictions == dedup.evictions
    ensures DecidedRight(cfg, h, dedup, r)
  {
    OneMoreChain(cfg, h, r, KeyOf(r));
    var entry := DedupEntry(IdOf(cfg, r), r.ts, r.ts, 1, 1);
    TouchValid(dedup, KeyOf(r), entry);
    assert KeyOf(r) !in dedup.values;
    TouchWithoutEviction(dedup, KeyOf(r), entry);
  }

  lemma {:induction false} DecideQuiet(cfg: Config, h: History, dedup: Lru<Key, DedupEntry>, r: Result)
    requires cfg.Valid() && dedup.Valid() && !Accepted(cfg, h, r)
    ensures DecidedRight(cfg, h, dedup, r)
  {
  }

  /** A result that is accepted and opens nothing finds the entry of its open chain. */
  lemma {:induction false} OpenEntry(cfg: Config, h: History, dedup: map<Key, DedupEntry>, r: Result)
    requires cfg.Valid() && DedupShows(cfg, h, r.ts, dedup) && Accepted(cfg, h, r) && !Opens(cfg, h, r)
    ensures ChainOf(cfg, h, KeyOf(r)).Some? && KeyOf(r) in dedup
    ensures dedup[KeyOf(r)] == EntryFor(ChainOf(cfg, h, KeyOf(r)).value) && r.ts - dedup[KeyOf(r)].lastSeen <= cfg.dedup
  {
  }

  lemma {:induction false} DecideTouches(cfg: Config, h: History, dedup: Lru<Key, DedupEntry>, r: Result)
    requires cfg.Valid() && dedup.Valid() && DedupShows(cfg, h, r.ts, dedup.values)
    requires Accepted(cfg, h, r) && !Opens(cfg, h, r)
    ensures DecidedRight(cfg, h, dedup, r)
  {
    OneMoreChain(cfg, h, r, KeyOf(r));
    OpenEntry(cfg, h, dedup.values, r);
    TouchDecision(cfg, dedup, r, Corroborators(cfg, h, r), SeenBy(cfg, h, r));
  }

  /** Deciding a confident result whose key has a recent entry. */
  lemma {:induction false} TouchDecision(cfg: Config, dedup: Lru<Key, DedupEntry>, r: Result, names: set<Name>,
                                         seen: Subject)
    requires cfg.Valid() && seen.results != [] && FusedConfidence(cfg, r, |names|) >= cfg.minConfidence
    requires KeyOf(r) in dedup.values && r.ts - dedup.values[KeyOf(r)].lastSeen <= cfg.dedup
    ensures var open := dedup.values[KeyOf(r)];
            var entry := open.(lastSeen := r.ts, count := open.count + 1, eventCount := open.eventCount + 1);
            Decide(cfg, dedup, r, names, seen) ==
            (LruPut(dedup, KeyOf(r), entry), seen, Touched(Touch(open.id, r.ts, entry.count, entry.eventCount)))
  {
  }

  /** With the dedup map showing the open chains, deciding one result gives its verdict. */
  lemma DecideIsVerdict(cfg: Config, h: History, dedup: Lru<Key, DedupEntry>, r: Result)
    requires cfg.Valid() && dedup.Valid() && DedupShows(cfg, h, r.ts, dedup.values)
    requires Decide(cfg, dedup, r, Corroborators(cfg, h, r), SeenBy(cfg, h, r)).0.evictions == dedup.evictions
    ensures DecidedRight(cfg, h, dedup, r)
  {
    if Opens(cfg, h, r) {
      DecideOpens(cfg, h, dedup, r);
    } else if !Accepted(cfg, h, r) {
      DecideQuiet(cfg, h, dedup, r);
    } else {
      DecideTouches(cfg, h, dedup, r);
    }
  }

  lemma {:induction false} DedupAfter(cfg: Config, h: History, r: Result, was: map<Key, DedupEntry>,
                                      dedup: map<Key, DedupEntry>)
    requires cfg.Valid() && DedupShows(cfg, h, r.ts, was)
    requires dedup == if !Accepted(cfg, h, r) then was
                      else was[KeyOf(r) := EntryFor(ChainOf(cfg, h + [r], KeyOf(r)).value)]
    ensures DedupShows(cfg, h + [r], r.ts, dedup)
  {
    OneMoreChain(cfg, h, r, KeyOf(r));
    forall k | k != KeyOf(r) ensures ChainOf(cfg, h + [r], k) == ChainOf(cfg, h, k) {
      OneMoreChain(cfg, h, r, k);
    }
  }

  lemma {:induction false} RecordElsewhere(cfg: Config, h: History, r: Result, x: Name)
    requires cfg.Valid() && r.subject != x
    ensures Generation(cfg, h + [r], x) == Generation(cfg, h, x)
    ensures Generation(cfg, h, x) != [] ==> SubjectRecord(cfg, h + [r], x) == SubjectRecord(cfg, h, x)
  {
    OneMoreElsewhere(cfg, h, r, x);
  }

  lemma {:induction false} SubjectsAfter(cfg: Config, h: History, r: Result, was: map<Name, Subject>,
                                         subjects: map<Name, Subject>)
    requires cfg.Valid() && SubjectsShow(cfg, h, r.ts, was)
    requires Generation(cfg, h + [r], r.subject) != []
    requires subjects == was[r.subject := SubjectRecord(cfg, h + [r], r.subject)]
    ensures SubjectsShow(cfg, h + [r], r.ts, subjects)
  {
    forall x
      ensures x in subjects <==> Continues(cfg, Generation(cfg, h + [r], x), r.ts)
      ensures x in subjects ==> subjects[x] == SubjectRecord(cfg, h + [r], x)
    {
      if x == r.subject {
        OneMoreHere(cfg, h, r);
      } else {
        RecordElsewhere(cfg, h, r, x);
      }
    }
  }

  /** The machine's view of the subject is the history's view, so it decides as if it had kept everything. */
  lemma {:induction false} FuseDecides(cfg: Config, h: History, s: State, r: Result)
    requires cfg.Valid() && SubjectsShow(cfg, h, r.ts, s.subjects.values) && Until(h, r.ts)
    ensures var (dedup, done, e) := Decide(cfg, s.dedup, r, Corroborators(cfg, h, r), SeenBy(cfg, h, r));
            FuseOne(cfg, s, r) ==
            (State(dedup, StoreSubject(LruTouch(s.subjects, r.subject, NewSubject(r.ts)), r.subject, done)), e)
  {
    RefreshedIsHistory(cfg, h, s, r);
    var subject := Refreshed(cfg, Known(s, r), r.ts);
    assert subject.(results := subject.results + [r], lastSeen := r.ts) == SeenBy(cfg, h, r);
  }

  lemma {:induction false} StoreKeeps(subjects: Lru<Name, Subject>, k: Name, initial: Subject, s: Subject)
    requires subjects.Valid()
    ensures StoreSubject(LruTouch(subjects, k, initial), k, s).Valid()
    ensures StoreSubject(LruTouch(subjects, k, initial), k, s).evictions == subjects.evictions ==>
            StoreSubject(LruTouch(subjects, k, initial), k, s).values == subjects.values[k := s]
  {
    TouchValid(subjects, k, initial);
  }

  /** Fusing one result at the current time emits its verdict and keeps the state in step with the history. */
  lemma {:induction false} FuseShows(cfg: Config, h: History, s: State, r: Result)
    requires cfg.Valid() && Shows(cfg, h, r.ts, s) && Until(h, r.ts) && Roomy(cfg, s, r)
    ensures Shows(cfg, h + [r], r.ts, FuseOne(cfg, s, r).0)
    ensures FuseOne(cfg, s, r).1 == Verdict(cfg, h, r)
  {
    FuseDecides(cfg, h, s, r);
    var next := FuseOne(cfg, s, r).0;
    DecideIsVerdict(cfg, h, s.dedup, r);
    StoreKeeps(s.subjects, r.subject, NewSubject(r.ts), RecordGiven(cfg, h, r));
    DedupAfter(cfg, h, r, s.dedup.values, next.dedup.values);
    RecordAfter(cfg, h, r);
    SubjectsAfter(cfg, h, r, s.subjects.values, next.subjects.values);
  }
}
