/** Several workers of one group: each with its own fusion state, all writing one alert table, any of them restarted
    at any time. The table's counts are compared with what all of them accepted. */
module Crews {
  import opened LruMaps
  import opened Fusion
  import opened FusionRuns
  import opened Reports
  import opened Store
  import opened Accounting

  /** The fusion state of each worker, everything they decided so far in the order it was written, and the alert
      table. */
  datatype Crew = Crew(minds: seq<State>, out: seq<Emission>, rows: Rows)

  datatype Move = Work(w: nat, tick: Tick) | Restart(w: nat)

  predicate Possible(c: Crew, m: Move) {
    m.w < |c.minds| && (m.Work? ==> forall r :: r in m.tick.results ==> r.ts == m.tick.now)
  }

  function Next(cfg: Config, c: Crew, m: Move): Crew
    requires cfg.Valid() && Possible(c, m)
  {
    match m
    case Work(w, tick) =>
      var (s, out) := Step(cfg, c.minds[w], tick);
      Crew(c.minds[w := s], c.out + out, Apply(c.rows, out))
    case Restart(w) => c.(minds := c.minds[w := Initial(cfg)])
  }

  // ---- How often an alert is reported and raised ----

  function Named(out: seq<Emission>, id: AlertId): nat {
    if out == [] then 0
    else Named(out[..|out| - 1], id) + (if Names(out[|out| - 1], id) then 1 else 0)
  }

  function RaisedTimes(out: seq<Emission>, id: AlertId): nat {
    if out == [] then 0
    else
      var e := out[|out| - 1];
      RaisedTimes(out[..|out| - 1], id) + (if e.Raised? && e.alert.id == id then 1 else 0)
  }

  lemma {:induction false} OneMoreNamed(out: seq<Emission>, e: Emission, id: AlertId)
    ensures Named(out + [e], id) == Named(out, id) + (if Names(e, id) then 1 else 0)
    ensures RaisedTimes(out + [e], id) == RaisedTimes(out, id) + (if e.Raised? && e.alert.id == id then 1 else 0)
  {
    assert (out + [e])[..|out|] == out;
  }

  lemma {:induction false} RaisedIsNamed(out: seq<Emission>, id: AlertId)
    ensures RaisedTimes(out, id) <= Named(out, id)
    ensures RaisedTimes(out, id) >= 1 <==> id in RaisedIds(out)
  {
    if out != [] {
      RaisedIsNamed(out[..|out| - 1], id);
    }
  }

  // ---- What every crew keeps ----

  /** An open entry counts no result that another raising of its id accounts for; raised once, it counts them all. */
  ghost predicate EntryFits(out: seq<Emission>, k: Key, e: DedupEntry) {
    && e.id.key == k && e.count == e.eventCount >= 1 && RaisedTimes(out, e.id) >= 1
    && e.count + RaisedTimes(out, e.id) <= Named(out, e.id) + 1
    && (RaisedTimes(out, e.id) == 1 ==> e.count == Named(out, e.id))
  }

  ghost predicate MindFits(s: State, out: seq<Emission>) {
    s.dedup.Valid() && forall k :: k in s.dedup.values ==> EntryFits(out, k, s.dedup.values[k])
  }

  /** Two workers with entries of one alert have both raised it. */
  ghost predicate Apart(a: State, b: State, out: seq<Emission>) {
    forall k :: k in a.dedup.values && k in b.dedup.values && a.dedup.values[k].id == b.dedup.values[k].id ==>
      RaisedTimes(out, a.dedup.values[k].id) >= 2
  }

  ghost predicate MindsFit(minds: seq<State>, out: seq<Emission>) {
    && (forall w :: 0 <= w < |minds| ==> MindFits(minds[w], out))
    && (forall w, v :: 0 <= w < v < |minds| ==> Apart(minds[w], minds[v], out))
  }

  /** How often an insert of this id has been tried, the row found at the start included. */
  function Tries(base: Rows, out: seq<Emission>, id: AlertId): nat {
    RaisedTimes(out, id) + (if id in base then 1 else 0)
  }

  /** What the row would count if nothing were ever ignored or overwritten. */
  function Due(base: Rows, out: seq<Emission>, id: AlertId): nat {
    Named(out, id) + (if id in base then base[id].dedupCount else 0)
  }

  /** A row falls short of its due by at least one for every insert that was ignored, and is exact if none was. */
  ghost predicate RowFits(base: Rows, out: seq<Emission>, id: AlertId, count: nat) {
    && count >= 1 && Tries(base, out, id) >= 1
    && count + Tries(base, out, id) <= Due(base, out, id) + 1
    && (Tries(base, out, id) == 1 ==> count == Due(base, out, id))
  }

  ghost predicate RowsFit(base: Rows, out: seq<Emission>, t: Rows) {
    && (forall id :: id in t <==> id in base || Named(out, id) >= 1)
    && (forall id :: Named(out, id) >= 1 ==> RaisedTimes(out, id) >= 1)
    && (forall id :: id in t ==> RowFits(base, out, id, t[id].dedupCount))
  }

  // ---- One fused result ----

  /** What deciding one result does to the worker's open entries. */
  ghost predicate Decides(was: map<Key, DedupEntry>, now: map<Key, DedupEntry>, k: Key, e: Emission) {
    match e
    case Quiet => now == was
    case Touched(t) =>
      k in was && t.id == was[k].id && t.dedupCount == was[k].count + 1 && t.eventCount == was[k].eventCount + 1
      && k in now && now[k].id == t.id && now[k].count == t.dedupCount && now[k].eventCount == t.eventCount
      && forall x :: x != k ==> (x in now <==> x in was) && (x in was ==> now[x] == was[x])
    case Raised(a, _) =>
      k !in was && a.id.key == k && k in now && now[k].id == a.id && now[k].count == now[k].eventCount == 1
      && forall x :: x != k && x in now ==> x in was && now[x] == was[x]
  }

  lemma {:induction false} DecideEntries(cfg: Config, s: State, r: Result, names: set<Name>, seen: Subject)
    requires cfg.Valid() && seen.results != [] && s.dedup.Valid() && NoneStale(cfg, s, r.ts)
    ensures var (dedup, _, e) := Decide(cfg, s.dedup, r, names, seen);
            && dedup.Valid() && Decides(s.dedup.values, dedup.values, KeyOf(r), e)
            && forall subjects :: NoneStale(cfg, State(dedup, subjects), r.ts)
  {
    TouchValid(s.dedup, KeyOf(r), DedupEntry(IdOf(cfg, r), r.ts, r.ts, 1, 1));
  }

  lemma {:induction false} FuseEntries(cfg: Config, s: State, r: Result)
    requires cfg.Valid() && s.dedup.Valid() && NoneStale(cfg, s, r.ts)
    ensures var (s', e) := FuseOne(cfg, s, r);
            && s'.dedup.Valid() && NoneStale(cfg, s', r.ts)
            && Decides(s.dedup.values, s'.dedup.values, KeyOf(r), e)
  {
    var subject := Refreshed(cfg, Known(s, r), r.ts);
    DecideEntries(cfg, s, r, Agreeing(subject.results, r),
                  subject.(results := subject.results + [r], lastSeen := r.ts));
  }

  lemma {:induction false} EntryStays(out: seq<Emission>, e: Emission, k: Key, x: DedupEntry)
    requires EntryFits(out, k, x) && (Names(e, x.id) ==> e.Raised? || RaisedTimes(out, x.id) >= 2)
    ensures EntryFits(out + [e], k, x)
  {
    OneMoreNamed(out, e, x.id);
  }

  /** The worker's own entries after the decision. */
  lemma {:induction false} MindStays(out: seq<Emission>, s: State, s': State, k: Key, e: Emission)
    requires MindFits(s, out) && s'.dedup.Valid() && Decides(s.dedup.values, s'.dedup.values, k, e)
    requires e.Raised? && RaisedTimes(out, e.alert.id) == 0 ==> Named(out, e.alert.id) == 0
    ensures MindFits(s', out + [e])
  {
    forall x | x in s'.dedup.values ensures EntryFits(out + [e], x, s'.dedup.values[x]) {
      var entry := s'.dedup.values[x];
      if x != k || e.Quiet? {
        EntryStays(out, e, x, entry);
      } else {
        OneMoreNamed(out, e, entry.id);
        RaisedIsNamed(out, entry.id);
      }
    }
  }

  /** Another worker's entries: if it has one of the alert just reported, that alert was raised twice. */
  lemma {:induction false} OtherStays(out: seq<Emission>, s: State, other: State, k: Key, e: Emission)
    requires MindFits(s, out) && MindFits(other, out) && (Apart(s, other, out) || Apart(other, s, out))
    requires e.Touched? ==> k in s.dedup.values && s.dedup.values[k].id == e.touch.id
    ensures MindFits(other, out + [e])
  {
    forall x | x in other.dedup.values ensures EntryFits(out + [e], x, other.dedup.values[x]) {
      assert EntryFits(out, x, other.dedup.values[x]);
      if e.Touched? && e.touch.id == other.dedup.values[x].id {
        assert x == k;
      }
      EntryStays(out, e, x, other.dedup.values[x]);
    }
  }

  lemma {:induction false} StillApart(out: seq<Emission>, s: State, s': State, other: State, k: Key, e: Emission)
    requires MindFits(s, out) && MindFits(other, out) && Decides(s.dedup.values, s'.dedup.values, k, e)
    requires Apart(s, other, out) || Apart(other, s, out)
    ensures Apart(s', other, out + [e]) && Apart(other, s', out + [e])
  {
    forall x | x in s'.dedup.values && x in other.dedup.values && s'.dedup.values[x].id == other.dedup.values[x].id
      ensures RaisedTimes(out + [e], s'.dedup.values[x].id) >= 2
    {
      OneMoreNamed(out, e, s'.dedup.values[x].id);
      assert EntryFits(out, x, other.dedup.values[x]);
    }
  }

  lemma {:induction false} MindsStay(minds: seq<State>, out: seq<Emission>, w: nat, s': State, k: Key, e: Emission)
    requires MindsFit(minds, out) && w < |minds| && s'.dedup.Valid()
    requires Decides(minds[w].dedup.values, s'.dedup.values, k, e)
    requires e.Raised? && RaisedTimes(out, e.alert.id) == 0 ==> Named(out, e.alert.id) == 0
    ensures MindsFit(minds[w := s'], out + [e])
  {
    var minds', out' := minds[w := s'], out + [e];
    forall v | 0 <= v < |minds| ensures MindFits(minds'[v], out') {
      if v == w {
        MindStays(out, minds[w], s', k, e);
      } else {
        OtherStays(out, minds[w], minds[v], k, e);
      }
    }
    forall v, u | 0 <= v < u < |minds| ensures Apart(minds'[v], minds'[u], out') {
      if v == w {
        StillApart(out, minds[w], s', minds[u], k, e);
      } else if u == w {
        StillApart(out, minds[w], s', minds[v], k, e);
      } else {
        MoreApart(out, e, minds[v], minds[u]);
      }
    }
  }

  lemma {:induction false} MoreApart(out: seq<Emission>, e: Emission, a: State, b: State)
    requires Apart(a, b, out)
    ensures Apart(a, b, out + [e])
  {
    forall k | k in a.dedup.values && k in b.dedup.values && a.dedup.values[k].id == b.dedup.values[k].id
      ensures RaisedTimes(out + [e], a.dedup.values[k].id) >= 2
    {
      OneMoreNamed(out, e, a.dedup.values[k].id);
    }
  }

  /** The table after recording one more outcome. A touch carries one more than an open entry's count. */
  lemma {:induction false} RowsStay(base: Rows, out: seq<Emission>, t: Rows, e: Emission, k: Key, entry: DedupEntry)
    requires Positive(base) && RowsFit(base, out, t)
    requires e.Touched? ==> EntryFits(out, k, entry) && e.touch.id == entry.id && e.touch.dedupCount == entry.count + 1
    ensures RowsFit(base, out + [e], OneRow(t, e))
  {
    var out', t' := out + [e], OneRow(t, e);
    forall id ensures id in t' <==> id in base || Named(out', id) >= 1
      ensures Named(out', id) >= 1 ==> RaisedTimes(out', id) >= 1
      ensures id in t' ==> RowFits(base, out', id, t'[id].dedupCount)
    {
      OneMoreNamed(out, e, id);
      RaisedIsNamed(out, id);
      if id in t {
        assert RowFits(base, out, id, t[id].dedupCount);
      }
    }
  }

  // ---- Whole steps ----

  function OneMore(t: Rows, id: AlertId): Rows
    requires id in t
  {
    t[id := t[id].(dedupCount := t[id].dedupCount + 1)]
  }

  /** The table if every outcome added one to its row. */
  function Ideal(base: Rows, out: seq<Emission>): Rows {
    if out == [] then base
    else
      var t := Ideal(base, out[..|out| - 1]);
      match out[|out| - 1]
      case Quiet => t
      case Touched(m) => if m.id in t then OneMore(t, m.id) else t
      case Raised(a, _) => if a.id in t then OneMore(t, a.id) else t[a.id := NewRow(a)]
  }

  /** It has what each row is due, and adds up to the results accepted. */
  ghost predicate IdealFits(base: Rows, out: seq<Emission>) {
    var t := Ideal(base, out);
    && Total(t) == Total(base) + Accepts(out)
    && (forall id :: id in t <==> id in base || Named(out, id) >= 1)
    && (forall id :: id in t ==> t[id].dedupCount == Due(base, out, id))
  }

  lemma {:induction false} IdealStays(base: Rows, out: seq<Emission>, e: Emission)
    requires IdealFits(base, out) && (e.Touched? ==> e.touch.id in Ideal(base, out))
    ensures IdealFits(base, out + [e])
  {
    var t, t' := Ideal(base, out), Ideal(base, out + [e]);
    assert (out + [e])[..|out|] == out;
    match e
    case Quiet =>
    case Touched(m) => TotalSet(t, m.id, OneMore(t, m.id)[m.id]);
    case Raised(a, _) => TotalSet(t, a.id, t'[a.id]);
    forall id ensures id in t' <==> id in base || Named(out + [e], id) >= 1
      ensures id in t' ==> t'[id].dedupCount == Due(base, out + [e], id)
    {
      OneMoreNamed(out, e, id);
    }
  }

  /** What holds of a crew between results; `base` is the table it found. */
  ghost predicate Sound(base: Rows, c: Crew) {
    MindsFit(c.minds, c.out) && RowsFit(base, c.out, c.rows) && IdealFits(base, c.out)
  }

  lemma {:induction false} FuseSound(cfg: Config, base: Rows, c: Crew, w: nat, r: Result)
    requires cfg.Valid() && Positive(base) && Sound(base, c) && w < |c.minds| && NoneStale(cfg, c.minds[w], r.ts)
    ensures var (s', e) := FuseOne(cfg, c.minds[w], r);
            && Sound(base, Crew(c.minds[w := s'], c.out + [e], OneRow(c.rows, e))) && NoneStale(cfg, s', r.ts)
            && (e.Touched? ==> e.touch.id in c.rows)
  {
    var s, k := c.minds[w], KeyOf(r);
    FuseEntries(cfg, s, r);
    var (s', e) := FuseOne(cfg, s, r);
    assert MindFits(s, c.out);
    var entry := if k in s.dedup.values then s.dedup.values[k] else DedupEntry(IdOf(cfg, r), r.ts, r.ts, 1, 1);
    if e.Touched? {
      assert EntryFits(c.out, k, entry);
      RaisedIsNamed(c.out, entry.id);
    }
    MindsStay(c.minds, c.out, w, s', k, e);
    RowsStay(base, c.out, c.rows, e, k, entry);
    IdealStays(base, c.out, e);
  }

  /** A worker that forgets entries, or all of them, keeps the crew sound. */
  lemma {:induction false} ForgetSound(base: Rows, c: Crew, w: nat, s: State)
    requires Sound(base, c) && w < |c.minds| && s.dedup.Valid()
    requires forall k :: k in s.dedup.values ==>
               k in c.minds[w].dedup.values && s.dedup.values[k] == c.minds[w].dedup.values[k]
    ensures Sound(base, c.(minds := c.minds[w := s]))
  {
    var minds := c.minds[w := s];
    assert MindFits(c.minds[w], c.out);
    forall v, u | 0 <= v < u < |minds| ensures Apart(minds[v], minds[u], c.out) {
      assert Apart(c.minds[v], c.minds[u], c.out);
    }
  }

  /** Several results in turn, their outcomes applied together at the end. */
  lemma {:induction false} IngestSound(cfg: Config, base: Rows, c: Crew, w: nat, now: real, rs: seq<Result>)
    requires cfg.Valid() && Positive(base) && Sound(base, c) && w < |c.minds| && NoneStale(cfg, c.minds[w], now)
    requires forall r :: r in rs ==> r.ts == now
    ensures var (s', more) := Ingested(cfg, c.minds[w], rs);
            && Sound(base, Crew(c.minds[w := s'], c.out + more, Apply(c.rows, more)))
            && NoneStale(cfg, s', now) && TouchesOnly(more, Apply(c.rows, more).Keys)
  {
    if rs == [] {
      assert c.out + Ingested(cfg, c.minds[w], rs).1 == c.out && c.minds[w := c.minds[w]] == c.minds;
    } else {
      var front, r := rs[..|rs| - 1], rs[|rs| - 1];
      assert rs == front + [r];
      IngestSound(cfg, base, c, w, now, front);
      IngestOne(cfg, c.minds[w], front, r);
      if !r.shadow {
        var (mid, more) := Ingested(cfg, c.minds[w], front);
        var c' := Crew(c.minds[w := mid], c.out + more, Apply(c.rows, more));
        FuseSound(cfg, base, c', w, r);
        OneMoreApplied(c, c', w, mid, more, FuseOne(cfg, mid, r).0, FuseOne(cfg, mid, r).1);
      }
    }
  }

  lemma {:induction false} OneMoreApplied(c: Crew, c': Crew, w: nat, mid: State, more: seq<Emission>, s: State,
                                          e: Emission)
    requires w < |c.minds| && c' == Crew(c.minds[w := mid], c.out + more, Apply(c.rows, more))
    requires TouchesOnly(more, Apply(c.rows, more).Keys) && (e.Touched? ==> e.touch.id in c'.rows)
    ensures c'.minds[w := s] == c.minds[w := s] && c'.out + [e] == c.out + (more + [e])
    ensures OneRow(c'.rows, e) == Apply(c.rows, more + [e])
    ensures TouchesOnly(more + [e], Apply(c.rows, more + [e]).Keys)
  {
    ApplyOneMore(c.rows, more, e);
  }

  lemma {:induction false} ExpireSound(cfg: Config, base: Rows, c: Crew, w: nat, now: real)
    requires cfg.Valid() && Sound(base, c) && w < |c.minds|
    ensures Sound(base, c.(minds := c.minds[w := Expired(cfg, c.minds[w], now)]))
    ensures NoneStale(cfg, Expired(cfg, c.minds[w], now), now)
  {
    assert MindFits(c.minds[w], c.out);
    RetainValid(c.minds[w].dedup, DedupLive(now - cfg.dedup));
    ForgetSound(base, c, w, Expired(cfg, c.minds[w], now));
  }

  lemma {:induction false} NextSound(cfg: Config, base: Rows, c: Crew, m: Move)
    requires cfg.Valid() && Positive(base) && Sound(base, c) && Possible(c, m)
    ensures Sound(base, Next(cfg, c, m))
  {
    match m
    case Work(w, tick) =>
      ExpireSound(cfg, base, c, w, tick.now);
      var s := Expired(cfg, c.minds[w], tick.now);
      IngestSound(cfg, base, c.(minds := c.minds[w := s]), w, tick.now, tick.results);
      assert c.minds[w := s][w := Ingested(cfg, s, tick.results).0] == c.minds[w := Ingested(cfg, s, tick.results).0];
    case Restart(w) => ForgetSound(base, c, w, Initial(cfg));
  }

  // ---- The sum ----

  lemma {:induction false} SumsCompare(a: Rows, b: Rows)
    requires a.Keys == b.Keys && forall id :: id in a ==> a[id].dedupCount <= b[id].dedupCount
    ensures Total(a) <= Total(b)
    ensures Total(a) == Total(b) <==> forall id :: id in a ==> a[id].dedupCount == b[id].dedupCount
    decreases |a|
  {
    if a == map[] {
      assert b == map[];
    } else {
      var id :| id in a;
      TotalPick(a, id);
      TotalPick(b, id);
      var a', b' := a - {id}, b - {id};
      SumsCompare(a', b');
      assert forall x :: x in a' ==> a'[x] == a[x] && b'[x] == b[x];
      assert forall x :: x in a ==> x == id || x in a';
    }
  }

  lemma {:induction false} AllNewIff(base: Rows, out: seq<Emission>)
    ensures AllNew(base.Keys, out) <==> forall id :: Tries(base, out, id) <= 1
  {
    if out != [] {
      var front, e := out[..|out| - 1], out[|out| - 1];
      assert out == front + [e];
      AllNewIff(base, front);
      forall id
        ensures Tries(base, out, id) == Tries(base, front, id) + (if e.Raised? && e.alert.id == id then 1 else 0)
        ensures RaisedTimes(front, id) >= 1 <==> id in RaisedIds(front)
      {
        OneMoreNamed(front, e, id);
        RaisedIsNamed(front, id);
      }
      if e.Raised? {
        assert Tries(base, out, e.alert.id) == Tries(base, front, e.alert.id) + 1;
      }
    }
  }

  /** The sum of the rows against the sum of what they are due. */
  lemma SoundAddsUp(base: Rows, c: Crew)
    requires Sound(base, c)
    ensures Total(c.rows) <= Total(base) + Accepts(c.out)
    ensures Total(c.rows) == Total(base) + Accepts(c.out) <==> AllNew(base.Keys, c.out)
  {
    var ideal := Ideal(base, c.out);
    forall id | id in c.rows
      ensures c.rows[id].dedupCount <= ideal[id].dedupCount
      ensures c.rows[id].dedupCount == ideal[id].dedupCount <==> Tries(base, c.out, id) <= 1
    {
      assert RowFits(base, c.out, id, c.rows[id].dedupCount);
    }
    SumsCompare(c.rows, ideal);
    AllNewIff(base, c.out);
    forall id | id !in c.rows ensures Tries(base, c.out, id) == 0 {
      RaisedIsNamed(c.out, id);
    }
  }

  // ---- Runs ----

  function Fresh(cfg: Config, workers: nat, base: Rows): Crew {
    Crew(seq(workers, _ => Initial(cfg)), [], base)
  }

  ghost predicate IsMove(cfg: Config, crews: seq<Crew>, moves: seq<Move>, i: nat)
    requires cfg.Valid() && i < |moves| && i + 1 < |crews|
  {
    Possible(crews[i], moves[i]) && crews[i + 1] == Next(cfg, crews[i], moves[i])
  }

  ghost predicate IsRun(cfg: Config, workers: nat, base: Rows, crews: seq<Crew>, moves: seq<Move>)
    requires cfg.Valid()
  {
    && |crews| == |moves| + 1 && crews[0] == Fresh(cfg, workers, base)
    && forall i :: 0 <= i < |moves| ==> IsMove(cfg, crews, moves, i)
  }

  lemma FreshSound(cfg: Config, workers: nat, base: Rows)
    requires cfg.Valid() && Positive(base)
    ensures Sound(base, Fresh(cfg, workers, base))
  {
  }

  lemma {:induction false} RunIsSound(cfg: Config, workers: nat, base: Rows, crews: seq<Crew>, moves: seq<Move>, i: nat)
    requires cfg.Valid() && Positive(base) && IsRun(cfg, workers, base, crews, moves) && i < |crews|
    ensures Sound(base, crews[i])
  {
    if i == 0 {
      FreshSound(cfg, workers, base);
    } else {
      RunIsSound(cfg, workers, base, crews, moves, i - 1);
      assert IsMove(cfg, crews, moves, i - 1);
      NextSound(cfg, base, crews[i - 1], moves[i - 1]);
    }
  }

  /** Conservation with any number of workers at once, each restarted at will: the table never counts more than all of
      them accepted, and counts exactly that if and only if no alert any of them raised met a row already under its
      id. */
  lemma CrewAddsUpIff(cfg: Config, workers: nat, base: Rows, crews: seq<Crew>, moves: seq<Move>, i: nat)
    requires cfg.Valid() && Positive(base) && IsRun(cfg, workers, base, crews, moves) && i < |crews|
    ensures var c := crews[i];
            && Total(c.rows) <= Total(base) + Accepts(c.out)
            && (Total(c.rows) == Total(base) + Accepts(c.out) <==> AllNew(base.Keys, c.out))
  {
    RunIsSound(cfg, workers, base, crews, moves, i);
    SoundAddsUp(base, crews[i]);
  }
}
