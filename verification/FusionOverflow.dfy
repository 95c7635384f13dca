/** When a map overflows: the step that evicts still answers as the history does, but the state no longer shows
    the history, and a repeat of an evicted key is raised again where the history would count it. */
module FusionOverflow {
  import opened LruMaps
  import opened Fusion
  import opened FusionHistory
  import opened FusionProofs

  /** An overflowing touch evicts the oldest key. */
  lemma {:induction false} TouchEvicts<K(!new), V>(m: Lru<K, V>, k: K, v: V)
    requires m.Valid() && LruTouch(m, k, v).evictions != m.evictions
    ensures m.order != [] && m.order[0] in m.values && m.order[0] != k
    ensures m.order[0] !in LruTouch(m, k, v).values
  {
    assert m.order[0] in m.order;
  }

  /** A state that shows the history gives the history's verdict, whether or not the step overflows a map. */
  lemma {:induction false} NextVerdict(cfg: Config, h: History, s: State, r: Result)
    requires cfg.Valid() && Shows(cfg, h, r.ts, s) && Until(h, r.ts)
    ensures FuseOne(cfg, s, r).1 == Verdict(cfg, h, r)
  {
    FuseDecides(cfg, h, s, r);
    if Opens(cfg, h, r) {
      assert KeyOf(r) !in s.dedup.values;
    } else if !Accepted(cfg, h, r) {
      DecideQuiet(cfg, h, s.dedup, r);
    } else {
      DecideTouches(cfg, h, s.dedup, r);
    }
  }

  /** What the step does to the dedup map. */
  lemma {:induction false} DedupNext(cfg: Config, h: History, s: State, r: Result)
    requires cfg.Valid() && Shows(cfg, h, r.ts, s) && Until(h, r.ts)
    requires FuseOne(cfg, s, r).0.dedup.evictions != s.dedup.evictions
    ensures Opens(cfg, h, r) && s.dedup.order != []
    ensures var oldest := s.dedup.order[0];
            && oldest in s.dedup.values && oldest != KeyOf(r)
            && oldest !in FuseOne(cfg, s, r).0.dedup.values
            && ChainOf(cfg, h + [r], oldest) == ChainOf(cfg, h, oldest)
            && ChainOf(cfg, h, oldest).Some? && ChainOf(cfg, h, oldest).value.last >= r.ts - cfg.dedup
  {
    FuseDecides(cfg, h, s, r);
    TouchEvicts(s.dedup, KeyOf(r), DedupEntry(IdOf(cfg, r), r.ts, r.ts, 1, 1));
    OneMoreChain(cfg, h, r, s.dedup.order[0]);
  }

  lemma {:induction false} SubjectEvicted(cfg: Config, h: History, s: State, r: Result)
    requires cfg.Valid() && Shows(cfg, h, r.ts, s) && Until(h, r.ts)
    requires FuseOne(cfg, s, r).0.subjects.evictions != s.subjects.evictions
    ensures !SubjectsShow(cfg, h + [r], r.ts, FuseOne(cfg, s, r).0.subjects.values)
  {
    TouchEvicts(s.subjects, r.subject, NewSubject(r.ts));
    TouchValid(s.subjects, r.subject, NewSubject(r.ts));
    var oldest := s.subjects.order[0];
    OneMoreElsewhere(cfg, h, r, oldest);
    assert oldest !in FuseOne(cfg, s, r).0.subjects.values;
    assert Continues(cfg, Generation(cfg, h + [r], oldest), r.ts);
  }

  /** One fused result keeps the state showing the history exactly when it pushes nothing out of either map. */
  lemma {:induction false} ShowsIffRoomy(cfg: Config, h: History, s: State, r: Result)
    requires cfg.Valid() && Shows(cfg, h, r.ts, s) && Until(h, r.ts)
    ensures Shows(cfg, h + [r], r.ts, FuseOne(cfg, s, r).0) <==> Roomy(cfg, s, r)
  {
    if Roomy(cfg, s, r) {
      FuseShows(cfg, h, s, r);
    } else if FuseOne(cfg, s, r).0.subjects.evictions != s.subjects.evictions {
      SubjectEvicted(cfg, h, s, r);
    } else {
      DedupNext(cfg, h, s, r);
    }
  }

  lemma {:induction false} SubjectsNext(cfg: Config, h: History, s: State, r: Result)
    requires cfg.Valid() && Shows(cfg, h, r.ts, s) && Until(h, r.ts) && Opens(cfg, h, r)
    requires FuseOne(cfg, s, r).0.subjects.evictions == s.subjects.evictions
    ensures SubjectsShow(cfg, h + [r], r.ts, FuseOne(cfg, s, r).0.subjects.values) && Until(h + [r], r.ts)
  {
    FuseDecides(cfg, h, s, r);
    assert KeyOf(r) !in s.dedup.values;
    var done := Decide(cfg, s.dedup, r, Corroborators(cfg, h, r), SeenBy(cfg, h, r)).1;
    assert done == RecordGiven(cfg, h, r);
    StoreKeeps(s.subjects, r.subject, NewSubject(r.ts), done);
    RecordAfter(cfg, h, r);
    SubjectsAfter(cfg, h, r, s.subjects.values, FuseOne(cfg, s, r).0.subjects.values);
  }

  /** The map holds the key's chain, if that is still open. */
  ghost predicate KeyShows(cfg: Config, h: History, now: real, dedup: map<Key, DedupEntry>, key: Key)
    requires cfg.Valid()
  {
    && (key in dedup <==> ChainOf(cfg, h, key).Some? && ChainOf(cfg, h, key).value.last >= now - cfg.dedup)
    && (key in dedup ==> dedup[key].lastSeen == ChainOf(cfg, h, key).value.last)
  }

  lemma {:induction false} TouchOthers<K(!new), V>(m: Lru<K, V>, k: K, v: V, other: K)
    requires m.Valid() && k !in m.values && m.order != [] && other != m.order[0]
    ensures var values := LruTouch(m, k, v).values;
            && (other in values <==> other == k || other in m.values)
            && (other in values ==> values[other] == if other == k then v else m.values[other])
  {
  }

  /** A result that opens an alert touches its key. */
  lemma {:induction false} OpenTouches(cfg: Config, h: History, s: State, r: Result)
    requires cfg.Valid() && Shows(cfg, h, r.ts, s) && Until(h, r.ts) && Opens(cfg, h, r)
    ensures KeyOf(r) !in s.dedup.values
    ensures FuseOne(cfg, s, r).0.dedup == LruTouch(s.dedup, KeyOf(r), DedupEntry(IdOf(cfg, r), r.ts, r.ts, 1, 1))
  {
    FuseDecides(cfg, h, s, r);
  }

  /** Every key but the one evicted is shown as before. */
  lemma {:induction false} OthersStay(cfg: Config, h: History, s: State, r: Result, key: Key)
    requires cfg.Valid() && Shows(cfg, h, r.ts, s) && Until(h, r.ts) && Opens(cfg, h, r)
    requires s.dedup.order != [] && key != s.dedup.order[0]
    ensures KeyShows(cfg, h + [r], r.ts, FuseOne(cfg, s, r).0.dedup.values, key)
  {
    OpenTouches(cfg, h, s, r);
    OneMoreChain(cfg, h, r, key);
    TouchOthers(s.dedup, KeyOf(r), DedupEntry(IdOf(cfg, r), r.ts, r.ts, 1, 1), key);
  }

  /** An accepted result of a key whose chain the map shows is raised exactly when the history raises it. */
  lemma {:induction false} ShownAgrees(cfg: Config, h: History, s: State, r: Result)
    requires cfg.Valid() && SubjectsShow(cfg, h, r.ts, s.subjects.values) && Until(h, r.ts) && Accepted(cfg, h, r)
    requires KeyShows(cfg, h, r.ts, s.dedup.values, KeyOf(r))
    ensures FuseOne(cfg, s, r).1.Raised? <==> Verdict(cfg, h, r).Raised?
  {
    FuseDecides(cfg, h, s, r);
  }

  /** An accepted result of an open chain that the map has lost is raised where the history counts it. */
  lemma {:induction false} LostIsRaised(cfg: Config, h: History, s: State, r: Result)
    requires cfg.Valid() && SubjectsShow(cfg, h, r.ts, s.subjects.values) && Until(h, r.ts) && Accepted(cfg, h, r)
    requires KeyOf(r) !in s.dedup.values
    requires ChainOf(cfg, h, KeyOf(r)).Some? && ChainOf(cfg, h, KeyOf(r)).value.last >= r.ts - cfg.dedup
    ensures FuseOne(cfg, s, r).1.Raised? && Verdict(cfg, h, r).Touched?
  {
    FuseDecides(cfg, h, s, r);
  }

  /** After a step that overflows only the dedup map, an accepted result at the same time is raised where the history
      would count it exactly when it has the key just evicted. */
  lemma {:induction false} EvictedIsRaisedAgain(cfg: Config, h: History, s: State, r: Result, again: Result)
    requires cfg.Valid() && Shows(cfg, h, r.ts, s) && Until(h, r.ts)
    requires FuseOne(cfg, s, r).0.dedup.evictions != s.dedup.evictions
    requires FuseOne(cfg, s, r).0.subjects.evictions == s.subjects.evictions
    requires again.ts == r.ts && Accepted(cfg, h + [r], again)
    ensures s.dedup.order != []
    ensures var e := FuseOne(cfg, FuseOne(cfg, s, r).0, again).1;
            e.Raised? && Verdict(cfg, h + [r], again).Touched? <==> KeyOf(again) == s.dedup.order[0]
  {
    DedupNext(cfg, h, s, r);
    SubjectsNext(cfg, h, s, r);
    if KeyOf(again) == s.dedup.order[0] {
      LostIsRaised(cfg, h + [r], FuseOne(cfg, s, r).0, again);
    } else {
      OthersStay(cfg, h, s, r, KeyOf(again));
      ShownAgrees(cfg, h + [r], FuseOne(cfg, s, r).0, again);
    }
  }

  lemma {:induction false} KeyExpires(cfg: Config, h: History, s: State, was: real, now: real, key: Key)
    requires cfg.Valid() && was <= now && KeyShows(cfg, h, was, s.dedup.values, key)
    ensures KeyShows(cfg, h, now, Expired(cfg, s, now).dedup.values, key)
  {
  }

  /** What a later step finds after expiring: the subjects, every other key, and not the evicted one. */
  lemma {:induction false} LaterShows(cfg: Config, h: History, s: State, r: Result, now: real, key: Key)
    requires cfg.Valid() && Shows(cfg, h, r.ts, s) && Until(h, r.ts) && now >= r.ts
    requires FuseOne(cfg, s, r).0.dedup.evictions != s.dedup.evictions
    requires FuseOne(cfg, s, r).0.subjects.evictions == s.subjects.evictions
    ensures var later := Expired(cfg, FuseOne(cfg, s, r).0, now);
            && s.dedup.order != [] && Until(h + [r], now)
            && SubjectsShow(cfg, h + [r], now, later.subjects.values)
            && (key != s.dedup.order[0] ==> KeyShows(cfg, h + [r], now, later.dedup.values, key))
            && (key == s.dedup.order[0] ==> key !in later.dedup.values)
  {
    DedupNext(cfg, h, s, r);
    SubjectsNext(cfg, h, s, r);
    ExpireSubjects(cfg, h + [r], r.ts, now, FuseOne(cfg, s, r).0);
    if key != s.dedup.order[0] {
      OthersStay(cfg, h, s, r, key);
      KeyExpires(cfg, h + [r], FuseOne(cfg, s, r).0, r.ts, now, key);
    }
  }

  /** An accepted result of a key whose entry was lost is raised; the history touches if the chain is still open. */
  lemma {:induction false} LostOutcome(cfg: Config, h: History, s: State, r: Result)
    requires cfg.Valid() && SubjectsShow(cfg, h, r.ts, s.subjects.values) && Until(h, r.ts) && Accepted(cfg, h, r)
    requires KeyOf(r) !in s.dedup.values && ChainOf(cfg, h, KeyOf(r)).Some?
    ensures FuseOne(cfg, s, r).1.Raised?
    ensures Verdict(cfg, h, r).Touched? <==> r.ts - ChainOf(cfg, h, KeyOf(r)).value.last <= cfg.dedup
  {
    FuseDecides(cfg, h, s, r);
  }

  /** The same at any later step: an accepted result is raised where the history would count it exactly when it has the
      evicted key and that key's chain is still open. */
  lemma {:induction false} EvictedIsRaisedLater(cfg: Config, h: History, s: State, r: Result, again: Result,
                                                later: State)
    requires cfg.Valid() && Shows(cfg, h, r.ts, s) && Until(h, r.ts)
    requires FuseOne(cfg, s, r).0.dedup.evictions != s.dedup.evictions
    requires FuseOne(cfg, s, r).0.subjects.evictions == s.subjects.evictions
    requires again.ts >= r.ts && Accepted(cfg, h + [r], again)
    requires later == Expired(cfg, FuseOne(cfg, s, r).0, again.ts)
    ensures s.dedup.order != [] && ChainOf(cfg, h, s.dedup.order[0]).Some?
    ensures FuseOne(cfg, later, again).1.Raised? && Verdict(cfg, h + [r], again).Touched? <==>
            KeyOf(again) == s.dedup.order[0]
            && again.ts - ChainOf(cfg, h, s.dedup.order[0]).value.last <= cfg.dedup
  {
    DedupNext(cfg, h, s, r);
    LaterShows(cfg, h, s, r, again.ts, KeyOf(again));
    if KeyOf(again) == s.dedup.order[0] {
      LostOutcome(cfg, h + [r], later, again);
    } else {
      ShownAgrees(cfg, h + [r], later, again);
    }
  }
}
