/** What the verdicts say in plain terms: which results corroborate, which open an alert, what a touch
    counts, and how incidents follow a subject's runs of activity. */
module FusionFacts {
  import opened Fusion
  import opened FusionHistory

  // ---- What tells results and alerts apart ----

  /** Of one detector, about one threat class and one entity. */
  predicate SameSource(a: Result, b: Result) {
    a.detector == b.detector && a.threat == b.threat && a.entity == b.entity
  }

  /** The dedup key is the detector, the class and the entity, and nothing else. */
  lemma KeysAgreeIff(a: Result, b: Result)
    ensures KeyOf(a) == KeyOf(b) <==> SameSource(a, b)
  {
  }

  /** The alert id is those and the time in units of the dedup window. */
  lemma IdsAgreeIff(cfg: Config, a: Result, b: Result)
    requires cfg.Valid()
    ensures IdOf(cfg, a) == IdOf(cfg, b) <==>
            SameSource(a, b) && (a.ts / cfg.dedup).Floor == (b.ts / cfg.dedup).Floor
  {
  }

  // ---- Corroboration ----

  /** The detectors that corroborate `r` according to everything ever fused about its subject. */
  function WholeWindow(cfg: Config, h: History, r: Result): set<Name> {
    set x | x in h && x.subject == r.subject && x.ts >= r.ts - cfg.correlation
            && x.threat != r.threat && x.detector != r.detector :: x.detector
  }

  lemma SinceElements(rs: seq<Result>, cutoff: real)
    ensures forall x :: x in Since(rs, cutoff) <==> x in rs && x.ts >= cutoff
  {
    if rs != [] {
      SinceElements(rs[..|rs| - 1], cutoff);
      assert rs == rs[..|rs| - 1] + [rs[|rs| - 1]];
    }
  }

  lemma {:induction false} GenerationOneMore(cfg: Config, h: History, r: Result, subject: Name)
    ensures var run := Generation(cfg, h, subject);
            Generation(cfg, h + [r], subject) ==
            if r.subject != subject then run else if Continues(cfg, run, r.ts) then run + [r] else [r]
  {
    assert (h + [r])[..|h|] == h;
  }

  /** A past result still within the idle time is in its subject's current run of activity. */
  lemma {:induction false} GenerationReaches(cfg: Config, h: History, x: Result, now: real)
    requires Timed(h) && Until(h, now) && x in h && now - x.ts <= cfg.idle
    ensures x in Generation(cfg, h, x.subject) && Continues(cfg, Generation(cfg, h, x.subject), now)
  {
    var front, last := h[..|h| - 1], h[|h| - 1];
    assert h == front + [last];
    if x !in front {
      assert x == last;
      GenerationOneMore(cfg, front, last, x.subject);
    } else if last.subject == x.subject {
      GenerationReaches(cfg, front, x, last.ts);
      GenerationOneMore(cfg, front, last, x.subject);
    } else {
      GenerationReaches(cfg, front, x, now);
      GenerationOneMore(cfg, front, last, x.subject);
    }
  }

  /** A subject's run continues exactly when something about it was fused within the idle time. */
  lemma ContinuesIff(cfg: Config, h: History, subject: Name, now: real)
    requires Timed(h) && Until(h, now)
    ensures Continues(cfg, Generation(cfg, h, subject), now) <==>
            exists x :: x in h && x.subject == subject && now - x.ts <= cfg.idle
  {
    GenerationIsPast(cfg, h, subject);
    if x :| x in h && x.subject == subject && now - x.ts <= cfg.idle {
      GenerationReaches(cfg, h, x, now);
    }
  }

  /** Forgetting is transparent: pruning to the window and resetting after idle gaps never changes which
      detectors corroborate a result, as long as the window is no longer than the idle time. */
  lemma CorroboratorsAreWhole(cfg: Config, h: History, r: Result)
    requires cfg.correlation <= cfg.idle && Timed(h) && Until(h, r.ts)
    ensures Corroborators(cfg, h, r) == WholeWindow(cfg, h, r)
  {
    var peers := Peers(cfg, h, r);
    SinceElements(peers, r.ts - cfg.correlation);
    GenerationIsPast(cfg, h, r.subject);
    forall x | x in h && x.subject == r.subject && x.ts >= r.ts - cfg.correlation
      ensures x in Since(peers, r.ts - cfg.correlation)
    {
      GenerationReaches(cfg, h, x, r.ts);
    }
  }

  /** No history in time order is judged differently for having been pruned and reset. */
  ghost predicate Transparent(cfg: Config) {
    forall h: History, r: Result :: Timed(h) && Until(h, r.ts) ==> Corroborators(cfg, h, r) == WholeWindow(cfg, h, r)
  }

  /** With a window longer than the idle time, a corroborating result exactly one window old is lost. */
  lemma LongWindowForgets(cfg: Config)
    requires cfg.Valid() && cfg.correlation > cfg.idle
    ensures var earlier := Result(1.0, 0, DDOS, 0, 0, 0.5, LOW, false, 0);
            var later := Result(1.0 + cfg.correlation, 1, RECON, 0, 0, 0.5, LOW, false, 1);
            Corroborators(cfg, [earlier], later) == {} && WholeWindow(cfg, [earlier], later) == {0}
  {
    var earlier := Result(1.0, 0, DDOS, 0, 0, 0.5, LOW, false, 0);
    assert [earlier][..0] == [];
    assert Generation(cfg, [earlier], 0) == [earlier];
  }

  /** The exact condition on the configuration. */
  lemma TransparentIff(cfg: Config)
    requires cfg.Valid()
    ensures Transparent(cfg) <==> cfg.correlation <= cfg.idle
  {
    if cfg.correlation <= cfg.idle {
      forall h: History, r: Result | Timed(h) && Until(h, r.ts)
        ensures Corroborators(cfg, h, r) == WholeWindow(cfg, h, r)
      {
        CorroboratorsAreWhole(cfg, h, r);
      }
    } else {
      LongWindowForgets(cfg);
      var earlier := Result(1.0, 0, DDOS, 0, 0, 0.5, LOW, false, 0);
      var later := Result(1.0 + cfg.correlation, 1, RECON, 0, 0, 0.5, LOW, false, 1);
      assert Corroborators(cfg, [earlier], later) != WholeWindow(cfg, [earlier], later);
    }
  }

  // ---- Suppression ----

  /** The `i`-th fused result is accepted, given those before it. */
  predicate AcceptedAt(cfg: Config, h: History, i: nat)
    requires i < |h|
  {
    Accepted(cfg, h[..i], h[i])
  }

  predicate OpensAt(cfg: Config, h: History, i: nat)
    requires cfg.Valid() && i < |h|
  {
    Opens(cfg, h[..i], h[i])
  }

  /** An earlier accepted result of the same detector, class and entity lies within the dedup window. */
  ghost predicate Suppressed(cfg: Config, h: History, r: Result) {
    exists i :: 0 <= i < |h| && SameSource(h[i], r) && AcceptedAt(cfg, h, i) && r.ts - h[i].ts <= cfg.dedup
  }

  lemma AtFront(cfg: Config, h: History)
    requires cfg.Valid() && h != []
    ensures forall i :: 0 <= i < |h| - 1 ==> AcceptedAt(cfg, h, i) == AcceptedAt(cfg, h[..|h| - 1], i)
    ensures forall i :: 0 <= i < |h| - 1 ==> OpensAt(cfg, h, i) == OpensAt(cfg, h[..|h| - 1], i)
  {
    forall i | 0 <= i < |h| - 1 ensures h[..i] == h[..|h| - 1][..i] {
    }
  }

  lemma {:induction false} ChainOneMore(cfg: Config, h: History, key: Key)
    requires cfg.Valid() && h != []
    ensures var (front, r) := (h[..|h| - 1], h[|h| - 1]);
            if KeyOf(r) == key && AcceptedAt(cfg, h, |h| - 1)
            then ChainOf(cfg, h, key).Some? && ChainOf(cfg, h, key).value.last == r.ts
            else ChainOf(cfg, h, key) == ChainOf(cfg, front, key)
  {
  }

  /** The `i`-th result is an accepted one of the key. */
  ghost predicate LinkAt(cfg: Config, h: History, key: Key, i: nat) {
    i < |h| && KeyOf(h[i]) == key && AcceptedAt(cfg, h, i)
  }

  /** The chain of a key ends no earlier than any accepted result of that key. */
  lemma {:induction false} ChainReaches(cfg: Config, h: History, key: Key, i: nat)
    requires cfg.Valid() && Timed(h) && LinkAt(cfg, h, key, i)
    ensures ChainOf(cfg, h, key).Some? && h[i].ts <= ChainOf(cfg, h, key).value.last
  {
    ChainOneMore(cfg, h, key);
    if !LinkAt(cfg, h, key, |h| - 1) {
      AtFront(cfg, h);
      ChainReaches(cfg, h[..|h| - 1], key, i);
    }
  }

  /** And ends at one of them. */
  lemma {:induction false} ChainEnds(cfg: Config, h: History, key: Key) returns (i: nat)
    requires cfg.Valid() && ChainOf(cfg, h, key).Some?
    ensures LinkAt(cfg, h, key, i) && h[i].ts == ChainOf(cfg, h, key).value.last
  {
    ChainOneMore(cfg, h, key);
    if LinkAt(cfg, h, key, |h| - 1) {
      i := |h| - 1;
    } else {
      i := ChainEnds(cfg, h[..|h| - 1], key);
      AtFront(cfg, h);
    }
  }

  /** Suppression is a predicate of the history: an accepted result opens a new alert exactly when no
      earlier accepted result of its detector, class and entity lies within the dedup window. */
  lemma OpensIff(cfg: Config, h: History, r: Result)
    requires cfg.Valid() && Timed(h) && Until(h, r.ts)
    ensures Opens(cfg, h, r) <==> Accepted(cfg, h, r) && !Suppressed(cfg, h, r)
  {
    if i :| 0 <= i < |h| && SameSource(h[i], r) && AcceptedAt(cfg, h, i) && r.ts - h[i].ts <= cfg.dedup {
      KeysAgreeIff(h[i], r);
      ChainReaches(cfg, h, KeyOf(r), i);
    }
    if Accepted(cfg, h, r) && !Opens(cfg, h, r) {
      var i := ChainEnds(cfg, h, KeyOf(r));
      KeysAgreeIff(h[i], r);
    }
  }

  /** How many results of a key have been accepted. */
  function AcceptedOf(cfg: Config, h: History, key: Key): nat {
    if h == [] then 0
    else
      var front, r := h[..|h| - 1], h[|h| - 1];
      AcceptedOf(cfg, front, key) + (if KeyOf(r) == key && Accepted(cfg, front, r) then 1 else 0)
  }

  /** The alert open at `j` is still the latest of its key. */
  ghost predicate LatestOpen(cfg: Config, h: History, key: Key, j: nat)
    requires cfg.Valid()
  {
    && j < |h| && KeyOf(h[j]) == key && OpensAt(cfg, h, j)
    && forall m :: j < m < |h| && KeyOf(h[m]) == key ==> !OpensAt(cfg, h, m)
  }

  lemma LatestStays(cfg: Config, h: History, key: Key, j: nat)
    requires cfg.Valid() && h != [] && LatestOpen(cfg, h[..|h| - 1], key, j)
    requires !(KeyOf(h[|h| - 1]) == key && Opens(cfg, h[..|h| - 1], h[|h| - 1]))
    ensures LatestOpen(cfg, h, key, j) && h[..j] == h[..|h| - 1][..j]
  {
    AtFront(cfg, h);
  }

  /** A chain names the latest alert of its key and counts the accepted results since, that one included. */
  lemma {:induction false} ChainOpener(cfg: Config, h: History, key: Key) returns (j: nat)
    requires cfg.Valid() && ChainOf(cfg, h, key).Some?
    ensures LatestOpen(cfg, h, key, j)
    ensures var c := ChainOf(cfg, h, key).value;
            && c.id == IdOf(cfg, h[j]) && c.since == h[j].ts
            && c.length == AcceptedOf(cfg, h, key) - AcceptedOf(cfg, h[..j], key)
  {
    var front, r := h[..|h| - 1], h[|h| - 1];
    if KeyOf(r) == key && Opens(cfg, front, r) {
      j := |h| - 1;
    } else {
      j := ChainOpener(cfg, front, key);
      LatestStays(cfg, h, key, j);
    }
  }

  /** What a touch reports: the latest alert of the key, and the number of accepted results it stands for. */
  lemma TouchCounts(cfg: Config, h: History, r: Result) returns (j: nat)
    requires cfg.Valid() && Verdict(cfg, h, r).Touched?
    ensures LatestOpen(cfg, h, KeyOf(r), j)
    ensures var t := Verdict(cfg, h, r).touch;
            && t.id == IdOf(cfg, h[j]) && t.lastSeen == r.ts && t.dedupCount == t.eventCount
            && t.dedupCount == AcceptedOf(cfg, h, KeyOf(r)) - AcceptedOf(cfg, h[..j], KeyOf(r)) + 1
  {
    j := ChainOpener(cfg, h, KeyOf(r));
  }

  // ---- Alert ids ----

  lemma MoreThanOne(d: real, w: real)
    requires w > 0.0 && d * w > w
    ensures d > 1.0
  {
  }

  /** Two times more than a window apart fall in different buckets. */
  lemma BucketsDiffer(a: real, b: real, w: real)
    requires w > 0.0 && b - a > w
    ensures (a / w).Floor < (b / w).Floor
  {
    var d := b / w - a / w;
    assert d * w == b - a;
    MoreThanOne(d, w);
  }

  lemma BucketsOrdered(a: real, b: real, w: real)
    requires w > 0.0 && a <= b
    ensures (a / w).Floor <= (b / w).Floor
  {
    assert a / w <= b / w;
  }

  /** Within one run no two alerts share an id. */
  lemma AlertIdsDiffer(cfg: Config, h: History, i: nat, j: nat)
    requires cfg.Valid() && Timed(h) && i < j < |h| && OpensAt(cfg, h, i) && OpensAt(cfg, h, j)
    ensures IdOf(cfg, h[i]) != IdOf(cfg, h[j])
  {
    if KeyOf(h[i]) == KeyOf(h[j]) {
      OpensIff(cfg, h[..j], h[j]);
      KeysAgreeIff(h[i], h[j]);
      assert h[..j][i] == h[i] && h[..j][..i] == h[..i];
      assert AcceptedAt(cfg, h[..j], i);
      BucketsDiffer(h[i].ts, h[j].ts, cfg.dedup);
    }
  }

  // ---- Confidence and severity ----

  /** The documented formula is bounded and monotonic in the corroborators, and agreement never lowers a
      confidence that was within the bound. */
  lemma {:induction false} ConfidenceBounded(cfg: Config, r: Result, n: nat, more: nat)
    requires cfg.Valid() && n <= more
    ensures FusedConfidence(cfg, r, n) <= FusedConfidence(cfg, r, more) <= cfg.maxConfidence
    ensures r.confidence <= cfg.maxConfidence ==> r.confidence <= FusedConfidence(cfg, r, n)
  {
    BonusGrows(cfg, n, more);
  }

  lemma {:induction false} BonusGrows(cfg: Config, n: nat, more: nat)
    requires cfg.bonus >= 0.0 && n <= more
    ensures 0.0 <= Bonus(cfg, n) <= Bonus(cfg, more)
  {
    Scaled(cfg.bonus, n as real, more as real);
  }

  /** Alone, a result keeps its confidence up to the maximum. */
  lemma {:induction false} ConfidenceAlone(cfg: Config, r: Result)
    ensures FusedConfidence(cfg, r, 0) == if r.confidence <= cfg.maxConfidence then r.confidence else cfg.maxConfidence
  {
    NoBonus(cfg, 0);
  }

  lemma {:induction false} NoBonus(cfg: Config, n: nat)
    requires n == 0
    ensures Bonus(cfg, n) == 0.0
  {
  }

  /** And each detector more that agrees adds the bonus, up to the maximum. */
  lemma {:induction false} ConfidenceSteps(cfg: Config, r: Result, n: nat)
    requires cfg.Valid()
    ensures FusedConfidence(cfg, r, n + 1) ==
            if FusedConfidence(cfg, r, n) + cfg.bonus <= cfg.maxConfidence then FusedConfidence(cfg, r, n) + cfg.bonus
            else cfg.maxConfidence
  {
    BonusSteps(cfg, n);
  }

  lemma {:induction false} BonusSteps(cfg: Config, n: nat)
    ensures Bonus(cfg, n + 1) == Bonus(cfg, n) + cfg.bonus
  {
    OneMoreBonus(cfg.bonus, n as real, (n + 1) as real);
  }

  lemma OneMoreBonus(b: real, n: real, more: real)
    requires more == n + 1.0
    ensures b * more == b * n + b
  {
  }

  lemma Scaled(b: real, x: real, y: real)
    requires b >= 0.0 && 0.0 <= x <= y
    ensures 0.0 <= b * x <= b * y
  {
    assert b * (y - x) >= 0.0;
  }

  /** Where the impact floor of a class puts a severity. */
  function FloorRank(threat: ThreatClass): nat {
    if threat.C2_BEACON? || threat.EXFILTRATION? || threat.DNS_TUNNEL? then 2 else 0
  }

  /** On the ladder from 0 to 4: the higher of the hint and the class floor, one step up when two or more
      others agree, and never past the top. */
  lemma SeverityRank(threat: ThreatClass, hint: Severity, n: nat)
    ensures var base := if Rank(hint) < FloorRank(threat) then FloorRank(threat) else Rank(hint);
            Rank(ScoreSeverity(threat, hint, n)) == if n >= 2 && base < 4 then base + 1 else base
  {
  }
}
