/** Fusing without expiring first. Pruning and resetting make `expire` needless for the outcome of the next result;
    but an entry that has gone stale in the dedup map is kept when its key alerts again, and from then on the map no
    longer shows the history. */
module FusionExpiry {
  import opened Common
  import opened LruMaps
  import opened Fusion
  import opened FusionHistory
  import opened FusionProofs

  /** The dedup map holds every open chain, and nothing that is not a chain of the history, open or not. */
  ghost predicate DedupKnows(cfg: Config, h: History, now: real, dedup: map<Key, DedupEntry>)
    requires cfg.Valid()
  {
    && (forall k :: ChainOf(cfg, h, k).Some? && ChainOf(cfg, h, k).value.last >= now - cfg.dedup ==> k in dedup)
    && (forall k :: k in dedup ==> ChainOf(cfg, h, k).Some? && dedup[k] == EntryFor(ChainOf(cfg, h, k).value))
  }

  /** The subject map holds every active subject, and nothing that is not a record of the history. */
  ghost predicate SubjectsKnow(cfg: Config, h: History, now: real, subjects: map<Name, Subject>)
    requires cfg.Valid()
  {
    && (forall x :: Continues(cfg, Generation(cfg, h, x), now) ==> x in subjects)
    && (forall x :: x in subjects ==> Generation(cfg, h, x) != [] && subjects[x] == SubjectRecord(cfg, h, x))
  }

  ghost predicate Knows(cfg: Config, h: History, now: real, s: State)
    requires cfg.Valid()
  {
    && s.dedup.Valid() && s.subjects.Valid()
    && DedupKnows(cfg, h, now, s.dedup.values) && SubjectsKnow(cfg, h, now, s.subjects.values)
  }

  /** Times are after the epoch, in order, and up to now. */
  ghost predicate Past(h: History, now: real) {
    Timed(h) && Until(h, now) && forall x :: x in h ==> x.ts > 0.0
  }

  /** What the maps show at one time they still know later, and expiring brings them up to date. */
  lemma {:induction false} KnowsLater(cfg: Config, h: History, was: real, now: real, s: State)
    requires cfg.Valid() && was <= now
    ensures Shows(cfg, h, was, s) ==> Knows(cfg, h, was, s)
    ensures Knows(cfg, h, was, s) ==> Knows(cfg, h, now, s)
  {
  }

  lemma {:induction false} NoneSince(rs: seq<Result>, cutoff: real)
    requires forall x :: x in rs ==> x.ts < cutoff
    ensures Since(rs, cutoff) == []
  {
    if rs != [] {
      assert forall x :: x in rs[..|rs| - 1] ==> x in rs;
      NoneSince(rs[..|rs| - 1], cutoff);
    }
  }

  /** A run of activity is in time order. */
  lemma {:induction false} LastOfRun(cfg: Config, h: History, subject: Name)
    requires Timed(h) && Generation(cfg, h, subject) != []
    ensures var run := Generation(cfg, h, subject); forall x :: x in run ==> x.ts <= run[|run| - 1].ts
  {
    var front, last := h[..|h| - 1], h[|h| - 1];
    assert h == front + [last];
    if last.subject == subject {
      GenerationIsPast(cfg, front, subject);
    } else {
      LastOfRun(cfg, front, subject);
    }
  }

  /** Nothing of a run of activity that has gone quiet is within the correlation window. */
  lemma {:induction false} QuietIsOld(cfg: Config, h: History, r: Result)
    requires cfg.correlation <= cfg.idle && Past(h, r.ts)
    requires Generation(cfg, h, r.subject) != [] && !Continues(cfg, Generation(cfg, h, r.subject), r.ts)
    ensures var run := Generation(cfg, h, r.subject);
            && Since(run, r.ts - cfg.correlation) == []
            && 0.0 < run[|run| - 1].ts <= r.ts && r.ts - run[|run| - 1].ts > cfg.idle
  {
    var run := Generation(cfg, h, r.subject);
    GenerationIsPast(cfg, h, r.subject);
    assert run[|run| - 1] in run && run[|run| - 1] in h;
    LastOfRun(cfg, h, r.subject);
    NoneSince(run, r.ts - cfg.correlation);
  }

  /** A record that has gone quiet is reset: nothing of its old run of activity is left. */
  lemma {:induction false} QuietRefresh(cfg: Config, h: History, r: Result)
    requires cfg.Valid() && cfg.correlation <= cfg.idle && Past(h, r.ts)
    requires Generation(cfg, h, r.subject) != [] && !Continues(cfg, Generation(cfg, h, r.subject), r.ts)
    ensures var was := SubjectRecord(cfg, h, r.subject);
            Refreshed(cfg, was, r.ts) == Subject([], None, [], r.ts, was.lastSeen)
  {
    QuietIsOld(cfg, h, r);
    ResetOf(cfg, Generation(cfg, h, r.subject), IncidentOf(cfg, h, r.subject), AlertsOf(cfg, h, r.subject), r.ts);
  }

  lemma {:induction false} ResetOf(cfg: Config, run: seq<Result>, incident: Option<nat>, alerts: seq<AlertId>, ts: real)
    requires run != [] && Since(run, ts - cfg.correlation) == []
    requires 0.0 < run[|run| - 1].ts <= ts && ts - run[|run| - 1].ts > cfg.idle
    ensures Refreshed(cfg, RecordOf(cfg, run, incident, alerts), ts) == Subject([], None, [], ts, run[|run| - 1].ts)
  {
    SinceTwice(run, run[|run| - 1].ts - cfg.correlation, ts - cfg.correlation);
  }

  /** The refreshed record is what the whole history calls for, whether or not the map was expired. */
  lemma {:induction false} RefreshedKnows(cfg: Config, h: History, s: State, r: Result)
    requires cfg.Valid() && cfg.correlation <= cfg.idle && Past(h, r.ts)
    requires SubjectsKnow(cfg, h, r.ts, s.subjects.values)
    ensures var x := Refreshed(cfg, Known(s, r), r.ts); x == FreshRecord(cfg, h, r, x.lastSeen)
  {
    assert Since([], r.ts - cfg.correlation) == [];
    if r.subject in s.subjects.values {
      if Continues(cfg, Generation(cfg, h, r.subject), r.ts) {
        TrackedRefresh(cfg, h, r);
      } else {
        QuietRefresh(cfg, h, r);
      }
    }
  }

  lemma {:induction false} FuseDecidesUnexpired(cfg: Config, h: History, s: State, r: Result)
    requires cfg.Valid() && cfg.correlation <= cfg.idle && Past(h, r.ts)
    requires SubjectsKnow(cfg, h, r.ts, s.subjects.values)
    ensures var (dedup, done, e) := Decide(cfg, s.dedup, r, Corroborators(cfg, h, r), SeenBy(cfg, h, r));
            FuseOne(cfg, s, r) ==
            (State(dedup, StoreSubject(LruTouch(s.subjects, r.subject, NewSubject(r.ts)), r.subject, done)), e)
  {
    RefreshedKnows(cfg, h, s, r);
    var subject := Refreshed(cfg, Known(s, r), r.ts);
    assert subject.(results := subject.results + [r], lastSeen := r.ts) == SeenBy(cfg, h, r);
  }

  /** What an entry in the map says about a result: a touch if it is recent enough, whether or not it should have been
      expired. */
  lemma {:induction false} DecideUnexpired(cfg: Config, h: History, dedup: Lru<Key, DedupEntry>, r: Result)
    requires cfg.Valid() && DedupKnows(cfg, h, r.ts, dedup.values)
    ensures var (_, done, e) := Decide(cfg, dedup, r, Corroborators(cfg, h, r), SeenBy(cfg, h, r));
            e == Verdict(cfg, h, r) && done == RecordGiven(cfg, h, r)
  {
  }

  /** The next result gets the verdict of the whole history, whether or not `expire` ran before it. */
  lemma {:induction false} NextVerdictUnexpired(cfg: Config, h: History, s: State, r: Result)
    requires cfg.Valid() && cfg.correlation <= cfg.idle && Past(h, r.ts) && Knows(cfg, h, r.ts, s)
    ensures FuseOne(cfg, s, r).1 == Verdict(cfg, h, r)
  {
    FuseDecidesUnexpired(cfg, h, s, r);
    DecideUnexpired(cfg, h, s.dedup, r);
  }

  // ---- A stale entry is kept ----

  /** The result opens an alert although the map still holds an entry of its key. */
  predicate MeetsStale(cfg: Config, h: History, s: State, r: Result)
    requires cfg.Valid()
  {
    Opens(cfg, h, r) && KeyOf(r) in s.dedup.values
  }

  /** What deciding does to the map, when nothing is pushed out. */
  lemma {:induction false} DecideEntry(cfg: Config, h: History, dedup: Lru<Key, DedupEntry>, r: Result)
    requires cfg.Valid() && dedup.Valid() && DedupKnows(cfg, h, r.ts, dedup.values)
    requires Decide(cfg, dedup, r, Corroborators(cfg, h, r), SeenBy(cfg, h, r)).0.evictions == dedup.evictions
    ensures var dedup' := Decide(cfg, dedup, r, Corroborators(cfg, h, r), SeenBy(cfg, h, r)).0;
            && dedup'.Valid()
            && dedup'.values == if !Accepted(cfg, h, r) || (Opens(cfg, h, r) && KeyOf(r) in dedup.values)
                                then dedup.values
                                else dedup.values[KeyOf(r) := EntryFor(ChainOf(cfg, h + [r], KeyOf(r)).value)]
  {
    OneMoreChain(cfg, h, r, KeyOf(r));
    if Opens(cfg, h, r) {
      var entry := DedupEntry(IdOf(cfg, r), r.ts, r.ts, 1, 1);
      TouchValid(dedup, KeyOf(r), entry);
      TouchWithoutEviction(dedup, KeyOf(r), entry);
    }
  }

  lemma {:induction false} DedupNextKnows(cfg: Config, h: History, s: State, r: Result)
    requires cfg.Valid() && cfg.correlation <= cfg.idle && Past(h, r.ts) && Knows(cfg, h, r.ts, s) && Roomy(cfg, s, r)
    ensures var dedup := FuseOne(cfg, s, r).0.dedup;
            && dedup.Valid()
            && dedup.values == if !Accepted(cfg, h, r) || MeetsStale(cfg, h, s, r) then s.dedup.values
                               else s.dedup.values[KeyOf(r) := EntryFor(ChainOf(cfg, h + [r], KeyOf(r)).value)]
  {
    FuseDecidesUnexpired(cfg, h, s, r);
    DecideEntry(cfg, h, s.dedup, r);
  }

  lemma {:induction false} ChainsKnown(cfg: Config, h: History, r: Result, was: map<Key, DedupEntry>,
                                       dedup: map<Key, DedupEntry>)
    requires cfg.Valid() && DedupKnows(cfg, h, r.ts, was)
    requires dedup == if !Accepted(cfg, h, r) then was
                      else was[KeyOf(r) := EntryFor(ChainOf(cfg, h + [r], KeyOf(r)).value)]
    ensures DedupKnows(cfg, h + [r], r.ts, dedup)
  {
    OneMoreChain(cfg, h, r, KeyOf(r));
    forall k | k != KeyOf(r) ensures ChainOf(cfg, h + [r], k) == ChainOf(cfg, h, k) {
      OneMoreChain(cfg, h, r, k);
    }
  }

  lemma {:induction false} SubjectsKnown(cfg: Config, h: History, s: State, r: Result)
    requires cfg.Valid() && cfg.correlation <= cfg.idle && Past(h, r.ts) && Knows(cfg, h, r.ts, s) && Roomy(cfg, s, r)
    ensures FuseOne(cfg, s, r).0.subjects.Valid()
    ensures SubjectsKnow(cfg, h + [r], r.ts, FuseOne(cfg, s, r).0.subjects.values)
  {
    FuseDecidesUnexpired(cfg, h, s, r);
    DecideUnexpired(cfg, h, s.dedup, r);
    StoreKeeps(s.subjects, r.subject, NewSubject(r.ts), RecordGiven(cfg, h, r));
    RecordAfter(cfg, h, r);
    var next := FuseOne(cfg, s, r).0.subjects.values;
    assert next == s.subjects.values[r.subject := RecordGiven(cfg, h, r)];
    forall x
      ensures Continues(cfg, Generation(cfg, h + [r], x), r.ts) ==> x in next
      ensures x in next ==> Generation(cfg, h + [r], x) != [] && next[x] == SubjectRecord(cfg, h + [r], x)
    {
      if x != r.subject {
        OneMoreElsewhere(cfg, h, r, x);
      }
    }
  }

  /** The exact condition: a step without overflow leaves maps that still know the history if and only if its result did
      not open an alert over a stale entry of its key. Expiring first rules that out. */
  lemma {:induction false} KnowsIff(cfg: Config, h: History, s: State, r: Result)
    requires cfg.Valid() && cfg.correlation <= cfg.idle && Past(h, r.ts) && Knows(cfg, h, r.ts, s) && Roomy(cfg, s, r)
    ensures Knows(cfg, h + [r], r.ts, FuseOne(cfg, s, r).0) <==> !MeetsStale(cfg, h, s, r)
    ensures Shows(cfg, h, r.ts, s) ==> !MeetsStale(cfg, h, s, r)
  {
    DedupNextKnows(cfg, h, s, r);
    SubjectsKnown(cfg, h, s, r);
    if MeetsStale(cfg, h, s, r) {
      OneMoreChain(cfg, h, r, KeyOf(r));
    } else {
      ChainsKnown(cfg, h, r, s.dedup.values, FuseOne(cfg, s, r).0.dedup.values);
    }
  }

  /** What goes wrong then: the next accepted result of that key at the same time is raised as well, where the history
      counts it onto the alert just raised. */
  lemma {:induction false} StaleIsRaisedAgain(cfg: Config, h: History, s: State, r: Result, again: Result)
    requires cfg.Valid() && cfg.correlation <= cfg.idle && Past(h + [r], r.ts) && Past(h, r.ts)
    requires Knows(cfg, h, r.ts, s) && Roomy(cfg, s, r) && MeetsStale(cfg, h, s, r)
    requires again.ts == r.ts && KeyOf(again) == KeyOf(r) && Accepted(cfg, h + [r], again)
    ensures FuseOne(cfg, FuseOne(cfg, s, r).0, again).1.Raised? && Verdict(cfg, h + [r], again).Touched?
  {
    DedupNextKnows(cfg, h, s, r);
    SubjectsKnown(cfg, h, s, r);
    OneMoreChain(cfg, h, r, KeyOf(r));
    FuseDecidesUnexpired(cfg, h + [r], FuseOne(cfg, s, r).0, again);
  }
}
