/** Workers that are restarted: a new worker begins with empty maps and the tables it finds, and events may be
    redelivered to it. */
module Restarts {
  import opened Common
  import opened Fusion
  import opened FusionHistory
  import opened FusionFacts
  import opened FusionRuns
  import opened Reports
  import opened Store
  import opened Accounting

  /** A worker that is restarted begins with empty maps and the tables it finds. */
  function Sessions(cfg: Config, sessions: seq<seq<Tick>>): Tables
    requires cfg.Valid()
  {
    if sessions == [] then EMPTY
    else Recorded(cfg, Sessions(cfg, sessions[..|sessions| - 1]), sessions[|sessions| - 1])
  }

  /** Each row is filed under the key and the time bucket of its alert. */
  ghost predicate Bucketed(cfg: Config, t: Rows)
    requires cfg.Valid()
  {
    forall id :: id in t ==> t[id].alert.id == id && id.bucket == Bucket(cfg, t[id].alert.ts)
  }

  ghost predicate EmitsBucketed(cfg: Config, out: seq<Emission>)
    requires cfg.Valid()
  {
    forall e :: e in out && e.Raised? ==> e.alert.id.bucket == Bucket(cfg, e.alert.ts)
  }

  lemma {:induction false} IngestEmits(cfg: Config, s: State, rs: seq<Result>)
    requires cfg.Valid()
    ensures EmitsBucketed(cfg, Ingested(cfg, s, rs).1)
  {
    if rs != [] {
      IngestEmits(cfg, s, rs[..|rs| - 1]);
    }
  }

  lemma {:induction false} ApplyBucketed(cfg: Config, t: Rows, out: seq<Emission>, n: nat)
    requires cfg.Valid() && Bucketed(cfg, t) && EmitsBucketed(cfg, out) && n <= |out|
    ensures Bucketed(cfg, AddAlerts(t, out))
    ensures Bucketed(cfg, TouchRows(AddAlerts(t, out), out[..n]))
  {
    if n > 0 {
      assert out[..n][..n - 1] == out[..n - 1];
      ApplyBucketed(cfg, t, out, n - 1);
    } else {
      AddBucketed(cfg, t, out);
    }
  }

  lemma {:induction false} AddBucketed(cfg: Config, t: Rows, out: seq<Emission>)
    requires cfg.Valid() && Bucketed(cfg, t) && EmitsBucketed(cfg, out)
    ensures Bucketed(cfg, AddAlerts(t, out))
  {
    if out != [] {
      assert out[|out| - 1] in out;
      AddBucketed(cfg, t, out[..|out| - 1]);
    }
  }

  lemma {:induction false} RecordedBucketed(cfg: Config, base: Tables, ticks: seq<Tick>)
    requires cfg.Valid() && Bucketed(cfg, base.alerts)
    ensures Bucketed(cfg, Recorded(cfg, base, ticks).alerts)
  {
    if ticks != [] {
      var front, last := ticks[..|ticks| - 1], ticks[|ticks| - 1];
      RecordedBucketed(cfg, base, front);
      var out := Step(cfg, Play(cfg, front).0, last).1;
      IngestEmits(cfg, Expired(cfg, Play(cfg, front).0, last.now), last.results);
      ApplyBucketed(cfg, Recorded(cfg, base, front).alerts, out, |out|);
      assert out[..|out|] == out;
    }
  }

  lemma {:induction false} SessionsBucketed(cfg: Config, sessions: seq<seq<Tick>>)
    requires cfg.Valid()
    ensures Bucketed(cfg, Sessions(cfg, sessions).alerts)
  {
    if sessions != [] {
      SessionsBucketed(cfg, sessions[..|sessions| - 1]);
      RecordedBucketed(cfg, Sessions(cfg, sessions[..|sessions| - 1]), sessions[|sessions| - 1]);
    }
  }

  lemma {:induction false} FewIds(ids: set<AlertId>, k: Key, lo: int, hi: int)
    requires lo <= hi + 1 && forall id :: id in ids ==> id.key == k && lo <= id.bucket <= hi
    ensures |ids| <= hi - lo + 1
    decreases hi - lo + 1
  {
    if lo <= hi {
      var rest := ids - {AlertId(k, hi)};
      FewIds(rest, k, lo, hi - 1);
      assert ids <= rest + {AlertId(k, hi)};
    } else {
      assert ids == {};
    }
  }

  /** The alerts a table holds for a key over a span of time. */
  function RowsOf(t: Rows, k: Key, a: real, b: real): set<AlertId> {
    set id | id in t && id.key == k && a <= t[id].alert.ts <= b
  }

  /** Whatever was restarted, evicted, redelivered or out of order, a key has at most one row per dedup
      window of time. */
  lemma RowsPerKey(cfg: Config, sessions: seq<seq<Tick>>, k: Key, a: real, b: real)
    requires cfg.Valid() && a <= b
    ensures |RowsOf(Sessions(cfg, sessions).alerts, k, a, b)| <= Bucket(cfg, b) - Bucket(cfg, a) + 1
  {
    var t := Sessions(cfg, sessions).alerts;
    SessionsBucketed(cfg, sessions);
    forall id | id in RowsOf(t, k, a, b) ensures Bucket(cfg, a) <= id.bucket <= Bucket(cfg, b) {
      BucketsOrdered(a, t[id].alert.ts, cfg.dedup);
      BucketsOrdered(t[id].alert.ts, b, cfg.dedup);
    }
    BucketsOrdered(a, b, cfg.dedup);
    FewIds(RowsOf(t, k, a, b), k, Bucket(cfg, a), Bucket(cfg, b));
  }

  /** The sum of the accepted results of all sessions. */
  function SessionsAccept(cfg: Config, sessions: seq<seq<Tick>>): nat
    requires cfg.Valid()
  {
    if sessions == [] then 0
    else
      SessionsAccept(cfg, sessions[..|sessions| - 1]) + Accepts(Play(cfg, sessions[|sessions| - 1]).1)
  }

  /** No session raises an alert under an id already in the table it found, nor one id twice. */
  predicate NeverMet(cfg: Config, sessions: seq<seq<Tick>>)
    requires cfg.Valid()
  {
    sessions == [] ||
    var front := sessions[..|sessions| - 1];
    NeverMet(cfg, front) && AllNew(Sessions(cfg, front).alerts.Keys, Play(cfg, sessions[|sessions| - 1]).1)
  }

  /** Conservation across restarts: the table never counts more than was accepted, and counts exactly that if and
      only if no session raised an alert that met a row already under its id. */
  lemma {:induction false} SessionsAddUpIff(cfg: Config, sessions: seq<seq<Tick>>)
    requires cfg.Valid() && forall n :: 0 <= n < |sessions| ==> InTime(sessions[n])
    ensures var t := Sessions(cfg, sessions).alerts;
            && Positive(t) && Total(t) <= SessionsAccept(cfg, sessions)
            && (Total(t) == SessionsAccept(cfg, sessions) <==> NeverMet(cfg, sessions))
  {
    if sessions != [] {
      var front, last := sessions[..|sessions| - 1], sessions[|sessions| - 1];
      SessionsAddUpIff(cfg, front);
      RunAddsUpIff(cfg, Sessions(cfg, front), last);
    }
  }

  // ---- The commonest way to meet a row: redelivery after a restart ----

  /** Nothing but `r`, over and over. */
  ghost predicate Only(h: History, r: Result) {
    forall i :: 0 <= i < |h| ==> h[i] == r
  }

  /** Confident enough to alert alone. */
  ghost predicate Confident(cfg: Config, r: Result) {
    cfg.Valid() && !r.shadow && FusedConfidence(cfg, r, 0) >= cfg.minConfidence
  }

  /** A detector does not corroborate itself. */
  lemma EchoAccepted(cfg: Config, h: History, r: Result)
    requires Confident(cfg, r) && Only(h, r)
    ensures Accepted(cfg, h, r)
  {
    GenerationIsPast(cfg, h, r.subject);
    SinceElements(Peers(cfg, h, r), r.ts - cfg.correlation);
    assert Corroborators(cfg, h, r) == {};
  }

  lemma {:induction false} EchoChain(cfg: Config, h: History, r: Result)
    requires Confident(cfg, r) && Only(h, r)
    ensures ChainOf(cfg, h, KeyOf(r)) == if h == [] then None else Some(Chain(IdOf(cfg, r), r.ts, r.ts, |h|))
  {
    if h != [] {
      var front := h[..|h| - 1];
      EchoChain(cfg, front, r);
      EchoAccepted(cfg, front, r);
    }
  }

  lemma EchoVerdict(cfg: Config, h: History, r: Result)
    requires Confident(cfg, r) && Only(h, r)
    ensures var e := Verdict(cfg, h, r);
            && (h == [] ==> e.Raised? && e.alert.id == IdOf(cfg, r))
            && (h != [] ==> e == Touched(Touch(IdOf(cfg, r), r.ts, |h| + 1, |h| + 1)))
  {
    EchoChain(cfg, h, r);
    EchoAccepted(cfg, h, r);
  }

  lemma {:induction false} VerdictsRows(cfg: Config, h: History, t: Rows)
    requires cfg.Valid() && h != []
    ensures var (front, r) := (h[..|h| - 1], h[|h| - 1]);
            OneByOne(t, Verdicts(cfg, h)) == OneRow(OneByOne(t, Verdicts(cfg, front)), Verdict(cfg, front, r))
  {
    OneMoreRow(t, Verdicts(cfg, h[..|h| - 1]), Verdict(cfg, h[..|h| - 1], h[|h| - 1]));
  }

  /** One more echo: the alert's row is there, and counts the echoes from the second on. */
  lemma {:induction false} EchoOneMore(cfg: Config, h: History, r: Result, t: Rows)
    requires Confident(cfg, r) && Only(h, r) && (h != [] ==> IdOf(cfg, r) in t)
    ensures var t', id := OneRow(t, Verdict(cfg, h, r)), IdOf(cfg, r);
            id in t' && (h != [] ==> t'[id].dedupCount == |h| + 1)
  {
    EchoVerdict(cfg, h, r);
  }

  lemma {:induction false} EchoRows(cfg: Config, h: History, r: Result, t: Rows)
    requires Confident(cfg, r) && Only(h, r) && h != []
    ensures var t', id := OneByOne(t, Verdicts(cfg, h)), IdOf(cfg, r);
            id in t' && (|h| >= 2 ==> t'[id].dedupCount == |h|)
  {
    var front := h[..|h| - 1];
    if front != [] {
      EchoRows(cfg, front, r, t);
    }
    VerdictsRows(cfg, h, t);
    EchoOneMore(cfg, front, r, OneByOne(t, Verdicts(cfg, front)));
  }

  lemma EchoesAreFed(h: History, r: Result)
    requires Only(h, r) && !r.shadow
    ensures NonShadow(h) == h
  {
    if h != [] {
      EchoesAreFed(h[..|h| - 1], r);
    }
  }

  /** A session that sees one result over and over leaves its own count, whatever count it found. */
  lemma SessionSetsCount(cfg: Config, h: History, r: Result, base: Tables)
    requires Confident(cfg, r) && Only(h, r) && |h| >= 2
    ensures var t := Recorded(cfg, base, [Tick(r.ts, h)]).alerts;
            IdOf(cfg, r) in t && t[IdOf(cfg, r)].dedupCount == |h|
  {
    var ticks := [Tick(r.ts, h)];
    EchoesAreFed(h, r);
    FewNeverFill(cfg, ticks, {KeyOf(r)}, {r.subject});
    RunIsVerdicts(cfg, ticks, r.ts);
    assert ticks[..0] == [];
    assert Fed(ticks) == h;
    RecordedOneByOne(cfg, base, ticks);
    EchoRows(cfg, h, r, base.alerts);
  }

  /** With some of the results redelivered to a new worker, the row counts only those. */
  lemma RestartLosesCount(cfg: Config, h: History, again: History, r: Result)
    requires Confident(cfg, r) && Only(h, r) && Only(again, r) && 2 <= |again| < |h|
    ensures var first, second, id := [Tick(r.ts, h)], [Tick(r.ts, again)], IdOf(cfg, r);
            && id in Sessions(cfg, [first]).alerts && Sessions(cfg, [first]).alerts[id].dedupCount == |h|
            && id in Sessions(cfg, [first, second]).alerts
            && Sessions(cfg, [first, second]).alerts[id].dedupCount == |again|
  {
    var first, second := [Tick(r.ts, h)], [Tick(r.ts, again)];
    SessionSetsCount(cfg, h, r, EMPTY);
    SessionSetsCount(cfg, again, r, Sessions(cfg, [first]));
    assert [first][..0] == [] && [first, second][..1] == [first];
  }
}
