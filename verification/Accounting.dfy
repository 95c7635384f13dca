/** The alert table adds up: every accepted result is counted by exactly one row. */
module Accounting {
  import opened Fusion
  import opened FusionHistory
  import opened FusionProofs
  import opened FusionFacts
  import opened FusionRuns
  import opened Reports
  import opened Store

  type Rows = map<AlertId, AlertRow>

  /** The sum of the duplicate counts over all rows. */
  ghost function Total(t: Rows): nat
    decreases |t|
  {
    if t == map[] then 0
    else
      var id :| id in t;
      t[id].dedupCount + Total(t - {id})
  }

  lemma {:induction false} TotalPick(t: Rows, id: AlertId)
    requires id in t
    ensures Total(t) == t[id].dedupCount + Total(t - {id})
    decreases |t|
  {
    assert t != map[];
    var first: AlertId :| first in t && Total(t) == t[first].dedupCount + Total(t - {first});
    if first != id {
      TotalPick(t - {first}, id);
      TotalPick(t - {id}, first);
      assert t - {first} - {id} == t - {id} - {first};
    }
  }

  /** Setting one row changes the total by that row alone. */
  lemma TotalSet(t: Rows, id: AlertId, row: AlertRow)
    ensures Total(t[id := row]) == Total(t) + row.dedupCount - (if id in t then t[id].dedupCount else 0)
  {
    var t' := t[id := row];
    TotalPick(t', id);
    assert t' - {id} == t - {id};
    if id in t {
      TotalPick(t, id);
    } else {
      assert t - {id} == t;
    }
  }

  /** The alerts raised by a history. */
  function Openers(cfg: Config, h: History): set<AlertId>
    requires cfg.Valid()
  {
    if h == [] then {}
    else
      var front, r := h[..|h| - 1], h[|h| - 1];
      Openers(cfg, front) + (if Opens(cfg, front, r) then {IdOf(cfg, r)} else {})
  }

  /** How many results of a history were accepted. */
  function AllAccepted(cfg: Config, h: History): nat {
    if h == [] then 0
    else AllAccepted(cfg, h[..|h| - 1]) + (if Accepted(cfg, h[..|h| - 1], h[|h| - 1]) then 1 else 0)
  }

  lemma {:induction false} OpenerAt(cfg: Config, h: History, id: AlertId) returns (j: nat)
    requires cfg.Valid() && id in Openers(cfg, h)
    ensures j < |h| && OpensAt(cfg, h, j) && id == IdOf(cfg, h[j])
  {
    var front, r := h[..|h| - 1], h[|h| - 1];
    if Opens(cfg, front, r) && id == IdOf(cfg, r) {
      j := |h| - 1;
    } else {
      j := OpenerAt(cfg, front, id);
      AtFront(cfg, h);
      assert OpensAt(cfg, h, j) && h[j] == front[j];
    }
  }

  /** A result that opens an alert gives it an id no earlier alert has. */
  lemma NewId(cfg: Config, h: History, r: Result)
    requires cfg.Valid() && Timed(h + [r]) && Opens(cfg, h, r)
    ensures IdOf(cfg, r) !in Openers(cfg, h)
  {
    if IdOf(cfg, r) in Openers(cfg, h) {
      var j := OpenerAt(cfg, h, IdOf(cfg, r));
      var all := h + [r];
      assert all[..|h|] == h && all[..j] == h[..j];
      AlertIdsDiffer(cfg, all, j, |h|);
    }
  }

  /** The row of a key's latest alert counts its chain. */
  ghost predicate ChainRow(cfg: Config, h: History, k: Key, t: Rows)
    requires cfg.Valid()
  {
    var c := ChainOf(cfg, h, k);
    c.Some? ==> && c.value.id in t && c.value.id.key == k
                && t[c.value.id].dedupCount == c.value.length && t[c.value.id].eventCount == c.value.length
                && t[c.value.id].lastSeen == c.value.last
  }

  /** What the alert table holds after a history. */
  ghost predicate RowsShow(cfg: Config, h: History, t: Rows)
    requires cfg.Valid()
  {
    && t.Keys == Openers(cfg, h)
    && (forall k :: ChainRow(cfg, h, k, t))
    && Total(t) == AllAccepted(cfg, h)
  }

  /** Recording one verdict: insert its alert or advance its row. */
  function OneRow(t: Rows, e: Emission): Rows {
    TouchRow(AddAlert(t, e), e)
  }

  lemma {:induction false} ChainRowOpened(cfg: Config, h: History, t: Rows, r: Result, row: AlertRow, k: Key)
    requires cfg.Valid() && ChainRow(cfg, h, k, t) && Opens(cfg, h, r)
    requires row.dedupCount == 1 && row.eventCount == 1 && row.lastSeen == r.ts
    ensures ChainRow(cfg, h + [r], k, t[IdOf(cfg, r) := row])
  {
    OneMoreChain(cfg, h, r, k);
  }

  /** Opening an alert adds one key and one accepted result. */
  lemma {:induction false} OneMoreOpened(cfg: Config, h: History, r: Result)
    requires cfg.Valid() && Opens(cfg, h, r)
    ensures Openers(cfg, h + [r]) == Openers(cfg, h) + {IdOf(cfg, r)}
    ensures AllAccepted(cfg, h + [r]) == AllAccepted(cfg, h) + 1
  {
    assert (h + [r])[..|h|] == h;
  }

  lemma {:induction false} RecordOpened(cfg: Config, h: History, t: Rows, r: Result)
    requires cfg.Valid() && RowsShow(cfg, h, t) && Timed(h + [r]) && Opens(cfg, h, r)
    ensures RowsShow(cfg, h + [r], OneRow(t, Verdict(cfg, h, r)))
  {
    var a := Verdict(cfg, h, r).alert;
    NewId(cfg, h, r);
    assert a.id !in t.Keys;
    assert OneRow(t, Verdict(cfg, h, r)) == t[a.id := NewRow(a)];
    TotalSet(t, a.id, NewRow(a));
    OneMoreOpened(cfg, h, r);
    var h', t' := h + [r], t[a.id := NewRow(a)];
    forall k ensures ChainRow(cfg, h', k, t') {
      assert ChainRow(cfg, h, k, t);
      ChainRowOpened(cfg, h, t, r, NewRow(a), k);
    }
  }

  lemma RecordTouched(cfg: Config, h: History, t: Rows, r: Result)
    requires cfg.Valid() && RowsShow(cfg, h, t) && Accepted(cfg, h, r) && !Opens(cfg, h, r)
    ensures RowsShow(cfg, h + [r], OneRow(t, Verdict(cfg, h, r)))
  {
    var m := Verdict(cfg, h, r).touch;
    assert ChainRow(cfg, h, KeyOf(r), t);
    var row := t[m.id].(lastSeen := m.lastSeen, dedupCount := m.dedupCount, eventCount := m.eventCount);
    TotalSet(t, m.id, row);
    var h', t' := h + [r], t[m.id := row];
    assert h'[..|h|] == h;
    forall k ensures ChainRow(cfg, h', k, t') {
      assert ChainRow(cfg, h, k, t);
      OneMoreChain(cfg, h, r, k);
    }
  }

  lemma RecordQuiet(cfg: Config, h: History, t: Rows, r: Result)
    requires cfg.Valid() && RowsShow(cfg, h, t) && !Accepted(cfg, h, r)
    ensures RowsShow(cfg, h + [r], OneRow(t, Verdict(cfg, h, r)))
  {
    var h' := h + [r];
    assert h'[..|h|] == h;
    forall k ensures ChainRow(cfg, h', k, t) {
      assert ChainRow(cfg, h, k, t);
      OneMoreChain(cfg, h, r, k);
    }
  }

  lemma RecordOne(cfg: Config, h: History, t: Rows, r: Result)
    requires cfg.Valid() && RowsShow(cfg, h, t) && Timed(h + [r])
    ensures RowsShow(cfg, h + [r], OneRow(t, Verdict(cfg, h, r)))
  {
    if Opens(cfg, h, r) {
      RecordOpened(cfg, h, t, r);
    } else if Accepted(cfg, h, r) {
      RecordTouched(cfg, h, t, r);
    } else {
      RecordQuiet(cfg, h, t, r);
    }
  }

  // ---- A whole outcome: all its alerts first, then all its touches ----

  /** The table after a whole outcome is applied. */
  function Apply(t: Rows, out: seq<Emission>): Rows {
    TouchRows(AddAlerts(t, out), out)
  }

  /** The table after the outcomes are recorded one by one. */
  function OneByOne(t: Rows, out: seq<Emission>): Rows {
    if out == [] then t else OneRow(OneByOne(t, out[..|out| - 1]), out[|out| - 1])
  }

  ghost predicate TouchesOnly(out: seq<Emission>, ids: set<AlertId>) {
    forall e :: e in out && e.Touched? ==> e.touch.id in ids
  }

  /** Inserting an alert that no touch of the outcome names can as well be done after the touches. */
  lemma {:induction false} InsertLater(t: Rows, out: seq<Emission>, a: Alert)
    requires a.id !in t && forall e :: e in out && e.Touched? ==> e.touch.id != a.id
    ensures a.id !in TouchRows(t, out)
    ensures TouchRows(t[a.id := NewRow(a)], out) == TouchRows(t, out)[a.id := NewRow(a)]
  {
    if out != [] {
      var front, e := out[..|out| - 1], out[|out| - 1];
      assert out == front + [e];
      InsertLater(t, front, a);
    }
  }

  lemma {:induction false} TouchKeys(t: Rows, out: seq<Emission>)
    ensures TouchRows(t, out).Keys == t.Keys
  {
    if out != [] {
      TouchKeys(t, out[..|out| - 1]);
    }
  }

  /** Applying an outcome alerts first is recording its emissions one by one, provided no touch names an alert
      that is not yet there. */
  lemma ApplyOneMore(t: Rows, out: seq<Emission>, e: Emission)
    requires TouchesOnly(out, Apply(t, out).Keys)
    ensures Apply(t, out + [e]) == OneRow(Apply(t, out), e)
  {
    assert (out + [e])[..|out|] == out;
    TouchKeys(AddAlerts(t, out), out);
    if e.Raised? && e.alert.id !in AddAlerts(t, out) {
      InsertLater(AddAlerts(t, out), out, e.alert);
    }
  }

  lemma {:induction false} OneMoreRow(t: Rows, out: seq<Emission>, e: Emission)
    ensures OneByOne(t, out + [e]) == OneRow(OneByOne(t, out), e)
  {
    assert (out + [e])[..|out|] == out;
  }

  lemma {:induction false} OneByOneAppend(t: Rows, a: seq<Emission>, b: seq<Emission>)
    ensures OneByOne(t, a + b) == OneByOne(OneByOne(t, a), b)
  {
    if b == [] {
      assert a + b == a;
    } else {
      var front, e := b[..|b| - 1], b[|b| - 1];
      OneByOneAppend(t, a, front);
      assert a + b == (a + front) + [e];
      OneMoreRow(t, a + front, e);
    }
  }

  /** Every alert reported so far has a row. */
  ghost predicate AllFiled(t: Rows, out: seq<Emission>) {
    forall id :: LastReport(out, id) >= 1 ==> id in t
  }

  lemma OneMoreFiled(t: Rows, out: seq<Emission>, e: Emission)
    requires AllFiled(t, out) && Follows(out, e)
    ensures AllFiled(OneRow(t, e), out + [e])
  {
    forall id | LastReport(out + [e], id) >= 1 ensures id in OneRow(t, e) {
      OneMoreReport(out, e, id);
    }
  }

  /** Outcomes in sequence, applied one batch at a time, leave the table of recording them one by one. */
  lemma {:induction false} ApplyIsOneByOne(t: Rows, before: seq<Emission>, out: seq<Emission>)
    requires AllFiled(t, before) && InSequence(before + out)
    ensures Apply(t, out) == OneByOne(t, out) && AllFiled(Apply(t, out), before + out)
    ensures TouchesOnly(out, Apply(t, out).Keys)
  {
    if out == [] {
      assert before + out == before;
    } else {
      var front, e := out[..|out| - 1], out[|out| - 1];
      assert (before + out)[..|before + out| - 1] == before + front && before + out == before + front + [e];
      ApplyIsOneByOne(t, before, front);
      assert out == front + [e];
      ApplyOneMore(t, front, e);
      OneMoreRow(t, front, e);
      OneMoreFiled(Apply(t, front), before + front, e);
    }
  }

  // ---- When the counts add up ----

  /** Every row counts at least the result that opened its alert. */
  ghost predicate Positive(t: Rows) {
    forall id :: id in t ==> t[id].dedupCount >= 1
  }

  function RaisedIds(out: seq<Emission>): set<AlertId> {
    if out == [] then {}
    else RaisedIds(out[..|out| - 1]) + (if out[|out| - 1].Raised? then {out[|out| - 1].alert.id} else {})
  }

  /** No alert raised meets a row already under its id: none was there before, and no id is raised twice. */
  predicate AllNew(ids: set<AlertId>, out: seq<Emission>) {
    out == [] ||
    var front, e := out[..|out| - 1], out[|out| - 1];
    AllNew(ids, front) && (e.Raised? ==> e.alert.id !in ids + RaisedIds(front))
  }

  /** No row is behind what was last reported of its alert. */
  ghost predicate Ahead(t: Rows, out: seq<Emission>) {
    forall id :: LastReport(out, id) >= 1 ==> id in t && t[id].dedupCount >= LastReport(out, id)
  }

  /** Every row says exactly what was last reported of its alert. */
  ghost predicate Level(t: Rows, out: seq<Emission>) {
    forall id :: LastReport(out, id) >= 1 ==> id in t && t[id].dedupCount == LastReport(out, id)
  }

  /** The keys of the table, its counts against the reports, and its total against the results accepted. */
  ghost predicate Accounts(before: Rows, out: seq<Emission>, t: Rows) {
    && t.Keys == before.Keys + RaisedIds(out) && Positive(t) && Ahead(t, out)
    && Total(t) <= Total(before) + Accepts(out)
    && (AllNew(before.Keys, out) ==> Level(t, out) && Total(t) == Total(before) + Accepts(out))
    && (!AllNew(before.Keys, out) ==> Total(t) < Total(before) + Accepts(out))
  }

  lemma RaisedAccounts(before: Rows, out: seq<Emission>, t: Rows, e: Emission)
    requires Accounts(before, out, t) && e.Raised?
    ensures Accounts(before, out + [e], OneRow(t, e))
  {
    assert (out + [e])[..|out|] == out;
    TotalSet(t, e.alert.id, NewRow(e.alert));
    forall id ensures LastReport(out + [e], id) == if id == e.alert.id then 1 else LastReport(out, id) {
      OneMoreReport(out, e, id);
    }
  }

  lemma TouchedAccounts(before: Rows, out: seq<Emission>, t: Rows, e: Emission)
    requires Accounts(before, out, t) && e.Touched? && Follows(out, e)
    ensures Accounts(before, out + [e], OneRow(t, e))
  {
    var m := e.touch;
    TouchReports(out, e);
    TotalSet(t, m.id, t[m.id].(lastSeen := m.lastSeen, dedupCount := m.dedupCount, eventCount := m.eventCount));
  }

  lemma TouchReports(out: seq<Emission>, e: Emission)
    requires e.Touched?
    ensures forall id ::
              LastReport(out + [e], id) == if id == e.touch.id then e.touch.dedupCount else LastReport(out, id)
    ensures RaisedIds(out + [e]) == RaisedIds(out) && Accepts(out + [e]) == Accepts(out) + 1
    ensures forall ids :: AllNew(ids, out + [e]) == AllNew(ids, out)
  {
    assert (out + [e])[..|out|] == out;
    forall id
      ensures LastReport(out + [e], id) == if id == e.touch.id then e.touch.dedupCount else LastReport(out, id)
    {
      OneMoreReport(out, e, id);
    }
  }

  lemma QuietAccounts(before: Rows, out: seq<Emission>, t: Rows, e: Emission)
    requires Accounts(before, out, t) && e.Quiet?
    ensures Accounts(before, out + [e], OneRow(t, e))
  {
    assert (out + [e])[..|out|] == out;
    forall id ensures LastReport(out + [e], id) == LastReport(out, id) {
      OneMoreReport(out, e, id);
    }
  }

  lemma {:induction false} StreamAccounts(before: Rows, out: seq<Emission>)
    requires Positive(before) && InSequence(out)
    ensures Accounts(before, out, OneByOne(before, out))
  {
    if out != [] {
      var front, e := out[..|out| - 1], out[|out| - 1];
      assert out == front + [e];
      StreamAccounts(before, front);
      var t := OneByOne(before, front);
      match e
      case Quiet => QuietAccounts(before, front, t, e);
      case Touched(_) => TouchedAccounts(before, front, t, e);
      case Raised(_, _) => RaisedAccounts(before, front, t, e);
    }
  }

  // ---- Whole runs ----

  /** The tables after a run of pipeline steps, each outcome applied as it comes to what was there before. */
  function Recorded(cfg: Config, base: Tables, ticks: seq<Tick>): Tables
    requires cfg.Valid()
  {
    if ticks == [] then base
    else
      var front := ticks[..|ticks| - 1];
      Applied(Recorded(cfg, base, front), Step(cfg, Play(cfg, front).0, ticks[|ticks| - 1]).1)
  }

  /** Step by step the table is that of recording the run's outcomes one by one. */
  lemma {:induction false} RecordedOneByOne(cfg: Config, base: Tables, ticks: seq<Tick>)
    requires cfg.Valid() && InTime(ticks)
    ensures Recorded(cfg, base, ticks).alerts == OneByOne(base.alerts, Play(cfg, ticks).1)
    ensures AllFiled(Recorded(cfg, base, ticks).alerts, Play(cfg, ticks).1)
  {
    if ticks != [] {
      var front, last := ticks[..|ticks| - 1], ticks[|ticks| - 1];
      RecordedOneByOne(cfg, base, front);
      RunReportsInSequence(cfg, ticks);
      var (s, out) := Play(cfg, front);
      var more := Step(cfg, s, last).1;
      ApplyIsOneByOne(Recorded(cfg, base, front).alerts, out, more);
      OneByOneAppend(base.alerts, out, more);
    }
  }

  /** When a run's counts survive in the table, restarts and evictions included: the total grows by at most the
      accepted results, and by exactly that many if and only if no alert the run raised met a row already under
      its id, which the insert would ignore and the next touch overwrite. */
  lemma RunAddsUpIff(cfg: Config, base: Tables, ticks: seq<Tick>)
    requires cfg.Valid() && InTime(ticks) && Positive(base.alerts)
    ensures var t, out := Recorded(cfg, base, ticks).alerts, Play(cfg, ticks).1;
            && Positive(t) && t.Keys == base.alerts.Keys + RaisedIds(out)
            && Total(t) <= Total(base.alerts) + Accepts(out)
            && (Total(t) == Total(base.alerts) + Accepts(out) <==> AllNew(base.alerts.Keys, out))
  {
    RecordedOneByOne(cfg, base, ticks);
    RunReportsInSequence(cfg, ticks);
    StreamAccounts(base.alerts, Play(cfg, ticks).1);
  }

  // ---- The audit trail ----

  function Touches(out: seq<Emission>): nat {
    if out == [] then 0 else Touches(out[..|out| - 1]) + (if out[|out| - 1].Touched? then 1 else 0)
  }

  /** One CREATED row for each alert actually inserted, one DEDUPED row for each touch. */
  lemma {:induction false} AuditRows(t: Rows, out: seq<Emission>)
    ensures |CreatedRows(t, out)| == |AddAlerts(t, out)| - |t| && |DedupedRows(out)| == Touches(out)
  {
    if out != [] {
      AuditRows(t, out[..|out| - 1]);
    }
  }

  lemma {:induction false} TouchesAppend(a: seq<Emission>, b: seq<Emission>)
    ensures Touches(a + b) == Touches(a) + Touches(b)
  {
    if b == [] {
      assert a + b == a;
    } else {
      TouchesAppend(a, b[..|b| - 1]);
      assert (a + b)[..|a + b| - 1] == a + b[..|b| - 1];
    }
  }

  lemma SameSize(a: Rows, b: Rows)
    requires a.Keys == b.Keys
    ensures |a| == |b|
  {
    assert |a| == |a.Keys| && |b| == |b.Keys|;
  }

  /** Over every run the audit trail grows by the alerts inserted and the touches. */
  lemma {:induction false} AuditGrows(cfg: Config, base: Tables, ticks: seq<Tick>)
    requires cfg.Valid()
    ensures var t := Recorded(cfg, base, ticks);
            |t.audit| == |base.audit| + (|t.alerts| - |base.alerts|) + Touches(Play(cfg, ticks).1)
  {
    if ticks != [] {
      var front, last := ticks[..|ticks| - 1], ticks[|ticks| - 1];
      AuditGrows(cfg, base, front);
      var (s, out) := Play(cfg, front);
      var t, more := Recorded(cfg, base, front).alerts, Step(cfg, s, last).1;
      AuditRows(t, more);
      TouchKeys(AddAlerts(t, more), more);
      SameSize(AddAlerts(t, more), TouchRows(AddAlerts(t, more), more));
      TouchesAppend(out, more);
    }
  }

  /** As many new ids as alerts and touches together accept results, exactly when no alert meets a row. */
  lemma {:induction false} NewIds(ids: set<AlertId>, out: seq<Emission>)
    ensures |ids + RaisedIds(out)| + Touches(out) <= |ids| + Accepts(out)
    ensures |ids + RaisedIds(out)| + Touches(out) == |ids| + Accepts(out) <==> AllNew(ids, out)
  {
    if out == [] {
      assert ids + RaisedIds(out) == ids;
    } else {
      var front, e := out[..|out| - 1], out[|out| - 1];
      NewIds(ids, front);
      if e.Raised? {
        OneMoreId(ids + RaisedIds(front), e.alert.id);
        assert ids + RaisedIds(out) == ids + RaisedIds(front) + {e.alert.id};
      } else {
        assert RaisedIds(out) == RaisedIds(front);
      }
    }
  }

  lemma OneMoreId(ids: set<AlertId>, id: AlertId)
    ensures |ids + {id}| == |ids| + (if id in ids then 0 else 1)
  {
    if id in ids {
      assert ids + {id} == ids;
    }
  }

  /** The audit trail misses an accepted result exactly where the counts do. */
  lemma AuditAddsUpIff(cfg: Config, base: Tables, ticks: seq<Tick>)
    requires cfg.Valid() && InTime(ticks) && Positive(base.alerts)
    ensures var audit, out := Recorded(cfg, base, ticks).audit, Play(cfg, ticks).1;
            && |audit| <= |base.audit| + Accepts(out)
            && (|audit| == |base.audit| + Accepts(out) <==> AllNew(base.alerts.Keys, out))
  {
    var t, out := Recorded(cfg, base, ticks).alerts, Play(cfg, ticks).1;
    RunAddsUpIff(cfg, base, ticks);
    AuditGrows(cfg, base, ticks);
    NewIds(base.alerts.Keys, out);
    assert |t| == |base.alerts.Keys + RaisedIds(out)| && |base.alerts| == |base.alerts.Keys|;
  }

  // ---- Runs without eviction ----

  lemma {:induction false} VerdictsAccept(cfg: Config, h: History)
    requires cfg.Valid()
    ensures Accepts(Verdicts(cfg, h)) == AllAccepted(cfg, h)
  {
    if h != [] {
      VerdictsAccept(cfg, h[..|h| - 1]);
    }
  }

  lemma {:induction false} VerdictsShow(cfg: Config, h: History)
    requires cfg.Valid() && Timed(h)
    ensures RowsShow(cfg, h, OneByOne(map[], Verdicts(cfg, h)))
  {
    if h == [] {
      assert RowsShow(cfg, [], map[]);
    } else {
      var front, r := h[..|h| - 1], h[|h| - 1];
      assert h == front + [r];
      VerdictsShow(cfg, front);
      RecordOne(cfg, front, OneByOne(map[], Verdicts(cfg, front)), r);
      OneMoreRow(map[], Verdicts(cfg, front), Verdict(cfg, front, r));
    }
  }

  /** After a run in time order that never fills a map, from empty tables: the counts over the alert table and the
      audit rows each add up to the accepted results of the history, and the rows are exactly the alerts raised,
      the latest of each key counting its chain. */
  lemma TableAddsUp(cfg: Config, ticks: seq<Tick>)
    requires cfg.Valid() && InOrder(ticks) && NeverFull(cfg, ticks)
    ensures RowsShow(cfg, Fed(ticks), Recorded(cfg, EMPTY, ticks).alerts)
    ensures |Recorded(cfg, EMPTY, ticks).audit| == AllAccepted(cfg, Fed(ticks))
  {
    RunShows(cfg, ticks);
    RunAddsUpIff(cfg, EMPTY, ticks);
    AuditAddsUpIff(cfg, EMPTY, ticks);
  }

  lemma RunShows(cfg: Config, ticks: seq<Tick>)
    requires cfg.Valid() && InOrder(ticks) && NeverFull(cfg, ticks)
    ensures RowsShow(cfg, Fed(ticks), Recorded(cfg, EMPTY, ticks).alerts)
    ensures Accepts(Play(cfg, ticks).1) == AllAccepted(cfg, Fed(ticks))
  {
    var now := if ticks == [] then 0.0 else ticks[|ticks| - 1].now;
    RunIsVerdicts(cfg, ticks, now);
    FedIsTimed(ticks, now);
    RecordedOneByOne(cfg, EMPTY, ticks);
    VerdictsShow(cfg, Fed(ticks));
    VerdictsAccept(cfg, Fed(ticks));
  }

  /** In an ordered run that overflows no map no id is raised twice, so every alert raised gets a row of its own. */
  lemma {:induction false} RaisedOnce(cfg: Config, ticks: seq<Tick>)
    requires cfg.Valid() && InOrder(ticks) && NeverFull(cfg, ticks)
    ensures AllNew({}, Play(cfg, ticks).1)
  {
    RunShows(cfg, ticks);
    RunAddsUpIff(cfg, EMPTY, ticks);
  }
}
