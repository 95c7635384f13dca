/** What a stream of outcomes reports about each alert, whether or not the maps evict: every touch counts on
    from the last report of its alert, and the last counts of all chains add up to the accepted results. */
module Reports {
  import opened LruMaps
  import opened Fusion
  import opened FusionRuns

  predicate Names(e: Emission, id: AlertId) {
    match e
    case Quiet => false
    case Touched(t) => t.id == id
    case Raised(a, _) => a.id == id
  }

  /** The count an outcome reports: a new alert stands for one result. */
  function CountIn(e: Emission): nat {
    match e
    case Quiet => 0
    case Touched(t) => t.dedupCount
    case Raised(_, _) => 1
  }

  /** The count last reported for an alert, zero before any report. */
  function LastReport(out: seq<Emission>, id: AlertId): nat {
    if out == [] then 0
    else if Names(out[|out| - 1], id) then CountIn(out[|out| - 1])
    else LastReport(out[..|out| - 1], id)
  }

  /** A touch names an alert already reported and reports one more than was last reported of it. */
  predicate Follows(out: seq<Emission>, e: Emission) {
    e.Touched? ==>
      && LastReport(out, e.touch.id) >= 1
      && e.touch.dedupCount == e.touch.eventCount == LastReport(out, e.touch.id) + 1
  }

  predicate InSequence(out: seq<Emission>) {
    out == [] || (InSequence(out[..|out| - 1]) && Follows(out[..|out| - 1], out[|out| - 1]))
  }

  /** How many results were accepted: counted onto an alert or raised as one. */
  function Accepts(out: seq<Emission>): nat {
    if out == [] then 0 else Accepts(out[..|out| - 1]) + (if out[|out| - 1].Quiet? then 0 else 1)
  }

  // ---- The machine reports in sequence ----

  /** Every open entry holds the count last reported of its alert. */
  ghost predicate Tallies(s: State, out: seq<Emission>) {
    forall k :: k in s.dedup.values ==>
      var e := s.dedup.values[k];
      e.id.key == k && e.count == e.eventCount == LastReport(out, e.id) >= 1
  }

  /** No open entry is too old to be touched at `now`. */
  ghost predicate NoneStale(cfg: Config, s: State, now: real) {
    forall k :: k in s.dedup.values ==> s.dedup.values[k].lastSeen >= now - cfg.dedup
  }

  lemma OneMoreReport(out: seq<Emission>, e: Emission, id: AlertId)
    ensures LastReport(out + [e], id) == if Names(e, id) then CountIn(e) else LastReport(out, id)
  {
    assert (out + [e])[..|out|] == out;
  }

  /** One fused result. A result of an open key is always a touch, so the entry in the map is never left behind
      by a new alert of its key, and an evicted entry only ends its chain. */
  lemma {:induction false} DecideTallies(cfg: Config, s: State, out: seq<Emission>, r: Result, names: set<Name>,
                                         seen: Subject)
    requires cfg.Valid() && seen.results != [] && s.dedup.Valid()
    requires Tallies(s, out) && NoneStale(cfg, s, r.ts)
    ensures var (dedup, _, e) := Decide(cfg, s.dedup, r, names, seen);
            && dedup.Valid() && Follows(out, e)
            && forall subjects ::
                 Tallies(State(dedup, subjects), out + [e]) && NoneStale(cfg, State(dedup, subjects), r.ts)
  {
    var (dedup, _, e) := Decide(cfg, s.dedup, r, names, seen);
    TouchValid(s.dedup, KeyOf(r), DedupEntry(IdOf(cfg, r), r.ts, r.ts, 1, 1));
    forall k | k in dedup.values
      ensures var entry := dedup.values[k];
              && entry.id.key == k && entry.count == entry.eventCount == LastReport(out + [e], entry.id) >= 1
              && entry.lastSeen >= r.ts - cfg.dedup
    {
      OneMoreReport(out, e, dedup.values[k].id);
    }
  }

  lemma {:induction false} FuseTallies(cfg: Config, s: State, out: seq<Emission>, r: Result)
    requires cfg.Valid() && s.dedup.Valid() && Tallies(s, out) && NoneStale(cfg, s, r.ts)
    ensures var (s', e) := FuseOne(cfg, s, r);
            s'.dedup.Valid() && Tallies(s', out + [e]) && NoneStale(cfg, s', r.ts) && Follows(out, e)
  {
    var subject := Refreshed(cfg, Known(s, r), r.ts);
    DecideTallies(cfg, s, out, r, Agreeing(subject.results, r),
                  subject.(results := subject.results + [r], lastSeen := r.ts));
  }

  lemma {:induction false} IngestTallies(cfg: Config, s: State, out: seq<Emission>, now: real, rs: seq<Result>)
    requires cfg.Valid() && s.dedup.Valid() && Tallies(s, out) && NoneStale(cfg, s, now) && InSequence(out)
    requires forall r :: r in rs ==> r.ts == now
    ensures var (s', more) := Ingested(cfg, s, rs);
            s'.dedup.Valid() && Tallies(s', out + more) && NoneStale(cfg, s', now) && InSequence(out + more)
  {
    if rs == [] {
      assert out + Ingested(cfg, s, rs).1 == out;
    } else {
      var front, r := rs[..|rs| - 1], rs[|rs| - 1];
      assert rs == front + [r];
      IngestTallies(cfg, s, out, now, front);
      IngestOne(cfg, s, front, r);
      var (mid, more) := Ingested(cfg, s, front);
      if !r.shadow {
        FuseTallies(cfg, mid, out + more, r);
        var e := FuseOne(cfg, mid, r).1;
        assert out + (more + [e]) == (out + more) + [e];
        assert (out + more + [e])[..|out + more|] == out + more;
      }
    }
  }

  /** Results carry the time of their event; events may come in any order. */
  ghost predicate InTime(ticks: seq<Tick>) {
    forall i, r :: 0 <= i < |ticks| && r in ticks[i].results ==> r.ts == ticks[i].now
  }

  /** Over every run, evictions and disorder included, each chain reports 1, 2, 3 and so on: a touch reports one
      more than the last report naming its alert. */
  lemma {:induction false} RunReportsInSequence(cfg: Config, ticks: seq<Tick>)
    requires cfg.Valid() && InTime(ticks)
    ensures InSequence(Play(cfg, ticks).1)
    ensures Play(cfg, ticks).0.dedup.Valid() && Tallies(Play(cfg, ticks).0, Play(cfg, ticks).1)
  {
    if ticks != [] {
      var front, last := ticks[..|ticks| - 1], ticks[|ticks| - 1];
      RunReportsInSequence(cfg, front);
      var (s, out) := Play(cfg, front);
      RetainValid(s.dedup, DedupLive(last.now - cfg.dedup));
      IngestTallies(cfg, Expired(cfg, s, last.now), out, last.now, last.results);
    }
  }

  // ---- The last counts add up ----

  predicate SameAlert(a: Emission, b: Emission) {
    match b
    case Quiet => false
    case Touched(t) => Names(a, t.id)
    case Raised(x, _) => Names(a, x.id)
  }

  /** The next report of the alert that `out[i]` reports. */
  ghost predicate NextReport(out: seq<Emission>, i: nat, j: nat) {
    i < j < |out| && SameAlert(out[i], out[j]) && forall k :: i < k < j ==> !SameAlert(out[i], out[k])
  }

  /** The last report of its chain: the next report of the alert, if any, raises it anew. */
  ghost predicate Ends(out: seq<Emission>, i: nat)
    requires i < |out|
  {
    !out[i].Quiet? && forall j: nat :: NextReport(out, i, j) ==> out[j].Raised?
  }

  /** The sum of the counts reported by the last report of each chain, among the first `n` outcomes. */
  ghost function LastCounts(out: seq<Emission>, n: nat): nat
    requires n <= |out|
  {
    if n == 0 then 0 else LastCounts(out, n - 1) + (if Ends(out, n - 1) then CountIn(out[n - 1]) else 0)
  }

  ghost predicate LastNaming(out: seq<Emission>, id: AlertId, p: nat) {
    p < |out| && Names(out[p], id) && forall k :: p < k < |out| ==> !Names(out[k], id)
  }

  lemma {:induction false} LastNamed(out: seq<Emission>, id: AlertId) returns (p: nat)
    requires LastReport(out, id) >= 1
    ensures LastNaming(out, id, p) && CountIn(out[p]) == LastReport(out, id)
  {
    if Names(out[|out| - 1], id) {
      p := |out| - 1;
    } else {
      p := LastNamed(out[..|out| - 1], id);
    }
  }

  /** One more outcome ends no chain and leaves every other report as final as it was, except that a touch takes
      over from the last report of its alert. */
  lemma {:induction false} OneMoreEnds(out: seq<Emission>, e: Emission, i: nat)
    requires i < |out|
    ensures Ends(out + [e], i) <==>
            Ends(out, i) && !(e.Touched? && LastNaming(out, e.touch.id, i))
  {
    var all, n := out + [e], |out|;
    assert forall k :: 0 <= k < n ==> all[k] == out[k];
    forall j: nat | j < n ensures NextReport(all, i, j) <==> NextReport(out, i, j) {
    }
    if e.Touched? && Names(out[i], e.touch.id) {
      forall k | i < k < n ensures SameAlert(out[i], out[k]) <==> Names(out[k], e.touch.id) {
      }
      assert NextReport(all, i, n) <==> forall k :: i < k < n ==> !Names(out[k], e.touch.id);
    }
    if Ends(out, i) && !Ends(all, i) {
      var j: nat :| NextReport(all, i, j) && !all[j].Raised?;
      assert j == n;
    }
  }

  lemma {:induction false} OneMoreLast(out: seq<Emission>, e: Emission, n: nat, p: nat)
    requires n <= |out|
    requires e.Touched? ==> LastNaming(out, e.touch.id, p)
    ensures LastCounts(out + [e], n) == LastCounts(out, n) - (if e.Touched? && p < n then CountIn(out[p]) else 0)
  {
    if n > 0 {
      OneMoreLast(out, e, n - 1, p);
      OneMoreEnds(out, e, n - 1);
      if e.Touched? && n - 1 == p {
        assert Ends(out, p);
      }
    }
  }

  /** The last reported counts, summed over the chains, are the accepted results. */
  lemma {:induction false} LastCountsAddUp(out: seq<Emission>)
    requires InSequence(out)
    ensures LastCounts(out, |out|) == Accepts(out)
  {
    if out != [] {
      var front, e := out[..|out| - 1], out[|out| - 1];
      assert out == front + [e];
      LastCountsAddUp(front);
      var p := 0;
      if e.Touched? {
        p := LastNamed(front, e.touch.id);
      }
      OneMoreLast(front, e, |front|, p);
    }
  }

  /** Result accounting over every run, evictions included: every fused result is dropped, touched or raised, and
      the last counts of the chains add up to the ones accepted. */
  lemma RunAddsUp(cfg: Config, ticks: seq<Tick>)
    requires cfg.Valid() && InTime(ticks)
    ensures var out := Play(cfg, ticks).1; LastCounts(out, |out|) == Accepts(out)
  {
    RunReportsInSequence(cfg, ticks);
    LastCountsAddUp(Play(cfg, ticks).1);
  }
}
