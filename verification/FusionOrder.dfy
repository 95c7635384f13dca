/** Which entries the fusion maps lose when they overflow, over every run: of the open alerts the one raised longest
    ago, of the subjects the one a result was last fused about longest ago. */
module FusionOrder {
  import opened LruMaps
  import opened LruOrder
  import opened Fusion
  import opened FusionHistory
  import opened FusionRuns

  /** When an alert of the key was last raised: the number of that outcome, from one on. */
  function RaisedLast(out: seq<Emission>, k: Key): nat {
    if out == [] then 0
    else
      var e := out[|out| - 1];
      if e.Raised? && e.alert.id.key == k then |out| else RaisedLast(out[..|out| - 1], k)
  }

  /** When a result about the subject was last fused. */
  function FusedLast(h: History, x: Name): nat {
    if h == [] then 0 else if h[|h| - 1].subject == x then |h| else FusedLast(h[..|h| - 1], x)
  }

  lemma {:induction false} RaisedBefore(out: seq<Emission>, k: Key)
    ensures RaisedLast(out, k) <= |out|
  {
    if out != [] {
      RaisedBefore(out[..|out| - 1], k);
    }
  }

  lemma {:induction false} FusedBefore(h: History, x: Name)
    ensures FusedLast(h, x) <= |h|
  {
    if h != [] {
      FusedBefore(h[..|h| - 1], x);
    }
  }

  function RaiseTimes(out: seq<Emission>): Key -> nat { k => RaisedLast(out, k) }
  function FuseTimes(h: History): Name -> nat { x => FusedLast(h, x) }

  /** The open alerts stand in the order they were last raised. */
  ghost predicate KeysStand(m: Lru<Key, DedupEntry>, out: seq<Emission>) {
    m.Valid() && ByStamp(m.order, RaiseTimes(out))
  }

  /** The subjects stand in the order a result was last fused about them. */
  ghost predicate NamesStand(m: Lru<Name, Subject>, h: History) {
    m.Valid() && ByStamp(m.order, FuseTimes(h))
  }

  ghost predicate InTurn(s: State, out: seq<Emission>, h: History) {
    KeysStand(s.dedup, out) && NamesStand(s.subjects, h)
  }

  lemma {:induction false} RaisedOneMore(out: seq<Emission>, e: Emission, k: Key)
    ensures RaisedLast(out + [e], k) ==
            if e.Raised? && e.alert.id.key == k then |out| + 1 else RaisedLast(out, k)
  {
    assert (out + [e])[..|out|] == out;
  }

  lemma {:induction false} FusedOneMore(h: History, r: Result, x: Name)
    ensures FusedLast(h + [r], x) == if r.subject == x then |h| + 1 else FusedLast(h, x)
  {
    assert (h + [r])[..|h|] == h;
  }

  lemma {:induction false} DecideInTurn(cfg: Config, dedup: Lru<Key, DedupEntry>, out: seq<Emission>, r: Result,
                                        names: set<Name>, seen: Subject)
    requires cfg.Valid() && seen.results != [] && KeysStand(dedup, out)
    ensures var (dedup', _, e) := Decide(cfg, dedup, r, names, seen);
            KeysStand(dedup', out + [e])
  {
    var (dedup', _, e) := Decide(cfg, dedup, r, names, seen);
    var was, now := RaiseTimes(out), RaiseTimes(out + [e]);
    forall k ensures now(k) == if e.Raised? && e.alert.id.key == k then |out| + 1 else was(k) {
      RaisedOneMore(out, e, k);
    }
    if e.Raised? {
      var entry := DedupEntry(IdOf(cfg, r), r.ts, r.ts, 1, 1);
      TouchValid(dedup, KeyOf(r), entry);
      forall k | k in dedup.order ensures was(k) < now(KeyOf(r)) {
        RaisedBefore(out, k);
      }
      TouchByStamp(dedup, KeyOf(r), entry, was, now);
    } else {
      SameStamps(dedup.order, was, now);
    }
  }

  lemma {:induction false} SubjectsInTurn(subjects: Lru<Name, Subject>, h: History, r: Result, done: Subject)
    requires NamesStand(subjects, h)
    ensures var subjects' := StoreSubject(LruTouch(subjects, r.subject, NewSubject(r.ts)), r.subject, done);
            NamesStand(subjects', h + [r])
  {
    var was, now := FuseTimes(h), FuseTimes(h + [r]);
    TouchValid(subjects, r.subject, NewSubject(r.ts));
    forall x ensures now(x) == if r.subject == x then |h| + 1 else was(x) {
      FusedOneMore(h, r, x);
    }
    forall x | x in subjects.order ensures was(x) < now(r.subject) {
      FusedBefore(h, x);
    }
    TouchByStamp(subjects, r.subject, NewSubject(r.ts), was, now);
  }

  lemma {:induction false} FuseInTurn(cfg: Config, s: State, out: seq<Emission>, h: History, r: Result)
    requires cfg.Valid() && InTurn(s, out, h)
    ensures var (s', e) := FuseOne(cfg, s, r); InTurn(s', out + [e], h + [r])
  {
    var subject := Refreshed(cfg, Known(s, r), r.ts);
    var names, seen := Agreeing(subject.results, r), subject.(results := subject.results + [r], lastSeen := r.ts);
    DecideInTurn(cfg, s.dedup, out, r, names, seen);
    SubjectsInTurn(s.subjects, h, r, Decide(cfg, s.dedup, r, names, seen).1);
  }

  lemma {:induction false} IngestInTurn(cfg: Config, s: State, out: seq<Emission>, h: History, rs: seq<Result>)
    requires cfg.Valid() && InTurn(s, out, h)
    ensures var (s', more) := Ingested(cfg, s, rs); InTurn(s', out + more, h + NonShadow(rs))
  {
    if rs == [] {
      assert out + Ingested(cfg, s, rs).1 == out && h + NonShadow(rs) == h;
    } else {
      var front, r := rs[..|rs| - 1], rs[|rs| - 1];
      assert rs == front + [r];
      IngestInTurn(cfg, s, out, h, front);
      if r.shadow {
        IngestOne(cfg, s, front, r);
        assert NonShadow(rs) == NonShadow(front);
      } else {
        var (mid, more) := Ingested(cfg, s, front);
        FuseInTurn(cfg, mid, out + more, h + NonShadow(front), r);
        IngestOneMore(cfg, h, s, out, front, r);
      }
    }
  }

  lemma {:induction false} KeysExpire(m: Lru<Key, DedupEntry>, out: seq<Emission>, cutoff: real)
    requires KeysStand(m, out)
    ensures KeysStand(OpenKeys(m, cutoff), out)
  {
    RetainValid(m, DedupLive(cutoff));
    RetainByStamp(m, DedupLive(cutoff), RaiseTimes(out));
  }

  lemma {:induction false} NamesExpire(m: Lru<Name, Subject>, h: History, cutoff: real)
    requires NamesStand(m, h)
    ensures NamesStand(ActiveSubjects(m, cutoff), h)
  {
    RetainValid(m, SubjectLive(cutoff));
    RetainByStamp(m, SubjectLive(cutoff), FuseTimes(h));
  }

  lemma {:induction false} ExpireInTurn(cfg: Config, s: State, out: seq<Emission>, h: History, now: real)
    requires InTurn(s, out, h)
    ensures InTurn(Expired(cfg, s, now), out, h)
  {
    KeysExpire(s.dedup, out, now - cfg.dedup);
    NamesExpire(s.subjects, h, now - cfg.idle);
  }

  lemma {:induction false} PlayInTurn(cfg: Config, ticks: seq<Tick>)
    requires cfg.Valid()
    ensures InTurn(Play(cfg, ticks).0, Play(cfg, ticks).1, Fed(ticks))
  {
    if ticks != [] {
      var front, last := ticks[..|ticks| - 1], ticks[|ticks| - 1];
      PlayInTurn(cfg, front);
      var (s, out) := Play(cfg, front);
      ExpireInTurn(cfg, s, out, Fed(front), last.now);
      IngestInTurn(cfg, Expired(cfg, s, last.now), out, Fed(front), last.results);
    }
  }

  /** The state within a step: after the run `ticks`, expired at `now`, the results `rs` fused. */
  function Within(cfg: Config, ticks: seq<Tick>, now: real, rs: seq<Result>): (State, seq<Emission>)
    requires cfg.Valid()
  {
    var (s, out) := Play(cfg, ticks);
    var (s', more) := Ingested(cfg, Expired(cfg, s, now), rs);
    (s', out + more)
  }

  lemma {:induction false} WithinInTurn(cfg: Config, ticks: seq<Tick>, now: real, rs: seq<Result>)
    requires cfg.Valid()
    ensures var (s, out) := Within(cfg, ticks, now, rs); InTurn(s, out, Fed(ticks) + NonShadow(rs))
  {
    PlayInTurn(cfg, ticks);
    var (s, out) := Play(cfg, ticks);
    ExpireInTurn(cfg, s, out, Fed(ticks), now);
    IngestInTurn(cfg, Expired(cfg, s, now), out, Fed(ticks), rs);
  }

  /** When the next result overflows the dedup map, the entry lost is the one whose alert was raised longest ago of
      those held, and no other is lost. */
  lemma {:induction false} OldestAlertIsLost(cfg: Config, ticks: seq<Tick>, now: real, rs: seq<Result>, r: Result)
    returns (lost: Key)
    requires cfg.Valid()
    requires var s := Within(cfg, ticks, now, rs).0; FuseOne(cfg, s, r).0.dedup.evictions != s.dedup.evictions
    ensures var (s, out) := Within(cfg, ticks, now, rs);
            && lost in s.dedup.values && lost !in FuseOne(cfg, s, r).0.dedup.values
            && forall k :: k in s.dedup.values && k != lost ==>
                 k in FuseOne(cfg, s, r).0.dedup.values && RaisedLast(out, lost) < RaisedLast(out, k)
  {
    var (s, out) := Within(cfg, ticks, now, rs);
    WithinInTurn(cfg, ticks, now, rs);
    lost := OverflowEvicts(s.dedup, KeyOf(r), DedupEntry(IdOf(cfg, r), r.ts, r.ts, 1, 1), RaiseTimes(out));
  }

  /** And when it overflows the subject map, the subject lost is the one a result was fused about longest ago. */
  lemma {:induction false} OldestSubjectIsLost(cfg: Config, ticks: seq<Tick>, now: real, rs: seq<Result>, r: Result)
    returns (lost: Name)
    requires cfg.Valid()
    requires var s := Within(cfg, ticks, now, rs).0; FuseOne(cfg, s, r).0.subjects.evictions != s.subjects.evictions
    ensures var (s, h) := (Within(cfg, ticks, now, rs).0, Fed(ticks) + NonShadow(rs));
            && lost in s.subjects.values && lost !in FuseOne(cfg, s, r).0.subjects.values
            && forall x :: x in s.subjects.values && x != lost ==>
                 x in FuseOne(cfg, s, r).0.subjects.values && FusedLast(h, lost) < FusedLast(h, x)
  {
    var (s, h) := (Within(cfg, ticks, now, rs).0, Fed(ticks) + NonShadow(rs));
    WithinInTurn(cfg, ticks, now, rs);
    TouchValid(s.subjects, r.subject, NewSubject(r.ts));
    lost := OverflowEvicts(s.subjects, r.subject, NewSubject(r.ts), FuseTimes(h));
  }
}
