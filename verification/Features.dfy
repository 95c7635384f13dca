/** Per-entity feature state: the 22 counters of one window size, and one such bundle per size. */
module Features {
  import opened Common
  import opened Windows

  datatype Protocol = TCP | UDP | ICMP | OTHER

  datatype Dns = Dns(query: Option<string>, qtype: Option<string>, rcode: Option<string>, responseBytes: Option<nat>)

  /** What a bundle reads of a normalized event besides its timestamp. */
  datatype Flow = Flow(
    srcIp: string, dstIp: string, dstPort: Option<nat>, protocol: Protocol, service: Option<string>,
    duration: Option<real>, origPackets: nat, respPackets: Option<nat>, origBytes: nat, respBytes: Option<nat>,
    state: Option<string>, tcpFlags: Option<string>, ja4: Option<string>, dns: Option<Dns>)

  function OrZero(n: Option<nat>): nat {
    match n case None => 0 case Some(v) => v
  }

  function Upper(s: string): (u: string)
    ensures |u| == |s| && forall i :: 0 <= i < |s| ==> !('a' <= u[i] <= 'z')
    ensures forall i :: 0 <= i < |s| ==> u[i] == s[i] || ('a' <= s[i] <= 'z' && u[i] as int + 32 == s[i] as int)
  {
    seq(|s|, i requires 0 <= i < |s| => if 'a' <= s[i] <= 'z' then ((s[i] as int - 32) as char) else s[i])
  }

  /** The upper-cased text, with a missing value read as the empty string. */
  function UpperOr(s: Option<string>): string {
    match s case None => "" case Some(t) => Upper(t)
  }

  predicate NonEmpty(s: Option<string>) {
    s.Some? && s.value != ""
  }

  /** A TCP flow that was never established. */
  predicate IsSynOnly(f: Flow) {
    && f.protocol == TCP
    && (|| f.state in {Some("S0"), Some("REJ"), Some("RSTOS0"), Some("SH"), Some("SHR")}
        || ('S' in UpperOr(f.tcpFlags) && OrZero(f.respPackets) == 0))
  }

  /** A connection attempt that produced no response. */
  predicate IsFailed(f: Flow) {
    || f.state in {Some("S0"), Some("REJ"), Some("RSTOS0"), Some("SH")}
    || (OrZero(f.respPackets) == 0 && OrZero(f.respBytes) == 0)
  }

  predicate IsTxtLike(d: Dns) { UpperOr(d.qtype) in {"TXT", "NULL", "CNAME"} }
  predicate IsNxdomain(d: Dns) { UpperOr(d.rcode) in {"NXDOMAIN", "3"} }

  datatype Counter =
    | Flows | Packets | OrigBytes | RespBytes | OrigPackets | RespPackets | SynOnly | Failed | Durations
    | Tcp | Udp | Icmp | DnsQueries | DnsTxt | DnsNxdomain | DnsResponseBytes

  datatype Tracker = SrcIps | DstIps | DstPorts | Services | Ja4 | DnsNames

  datatype Label = Text(text: string) | Port(port: nat)

  function When(c: bool, v: real): Option<real> { if c then Some(v) else None }

  /** The value, if any, that one flow adds to a counter. */
  function Amount(c: Counter, f: Flow): Option<real> {
    match c
    case Flows => Some(1.0)
    case Packets => Some((f.origPackets + OrZero(f.respPackets)) as real)
    case OrigBytes => Some(f.origBytes as real)
    case RespBytes => Some(OrZero(f.respBytes) as real)
    case OrigPackets => Some(f.origPackets as real)
    case RespPackets => Some(OrZero(f.respPackets) as real)
    case SynOnly => When(IsSynOnly(f), 1.0)
    case Failed => When(IsFailed(f), 1.0)
    case Durations => f.duration
    case Tcp => When(f.protocol == TCP, 1.0)
    case Udp => When(f.protocol == UDP, 1.0)
    case Icmp => When(f.protocol == ICMP, 1.0)
    case DnsQueries => When(f.dns.Some?, 1.0)
    case DnsTxt => When(f.dns.Some? && IsTxtLike(f.dns.value), 1.0)
    case DnsNxdomain => When(f.dns.Some? && IsNxdomain(f.dns.value), 1.0)
    case DnsResponseBytes =>
      if f.dns.Some? && OrZero(f.dns.value.responseBytes) > 0
      then Some(OrZero(f.dns.value.responseBytes) as real) else None
  }

  function TextOf(s: Option<string>): Option<Label> {
    if NonEmpty(s) then Some(Text(s.value)) else None
  }

  /** The key, if any, that one flow adds to a tracker. */
  function KeyOf(t: Tracker, f: Flow): Option<Label> {
    match t
    case SrcIps => Some(Text(f.srcIp))
    case DstIps => Some(Text(f.dstIp))
    case DstPorts => if f.dstPort.Some? then Some(Port(f.dstPort.value)) else None
    case Services => TextOf(f.service)
    case Ja4 => TextOf(f.ja4)
    case DnsNames => if f.dns.Some? then TextOf(f.dns.value.query) else None
  }

  function AmountFn(c: Counter): Flow -> Option<real> { f => Amount(c, f) }
  function KeyFn(t: Tracker): Flow -> Option<Label> { f => KeyOf(t, f) }

  /** The entries a counter holds when the flows in `w` are the ones it has seen. */
  function Pick<A, B>(fn: A -> Option<B>, w: seq<Entry<A>>): seq<Entry<B>> {
    if w == [] then []
    else
      var last := w[|w| - 1];
      Pick(fn, w[..|w| - 1]) + (match fn(last.item) case None => [] case Some(b) => [Entry(last.ts, b)])
  }

  function Counted(c: Counter, w: seq<Entry<Flow>>): seq<Entry<real>> { Pick(AmountFn(c), w) }
  function Tracked(t: Tracker, w: seq<Entry<Flow>>): seq<Entry<Label>> { Pick(KeyFn(t), w) }

  lemma {:induction false} PickLive<A, B>(fn: A -> Option<B>, w: seq<Entry<A>>, cutoff: real)
    ensures Live(Pick(fn, w), cutoff) == Pick(fn, Live(w, cutoff))
  {
    if w != [] {
      var front, last := w[..|w| - 1], w[|w| - 1];
      PickLive(fn, front, cutoff);
      var tail := match fn(last.item) case None => [] case Some(b) => [Entry(last.ts, b)];
      LiveAppend(Pick(fn, front), tail, cutoff);
      if last.ts > cutoff {
        assert (Live(front, cutoff) + [last])[..|Live(front, cutoff)|] == Live(front, cutoff);
        assert Live(w, cutoff) == Live(front, cutoff) + [last];
      } else {
        assert Live(w, cutoff) == Live(front, cutoff);
      }
      if tail != [] {
        assert tail[..0] == [];
      }
    }
  }

  lemma PickSize<A, B>(fn: A -> Option<B>, w: seq<Entry<A>>)
    ensures |Pick(fn, w)| <= |w|
  {
  }

  /** Picking keeps the timestamps, so it keeps their order and their bounds. */
  lemma PickOrdered<A(!new), B(!new)>(fn: A -> Option<B>, w: seq<Entry<A>>, clock: real)
    requires Ordered(w) && forall i :: 0 <= i < |w| ==> w[i].ts <= clock
    ensures Ordered(Pick(fn, w))
    ensures forall i :: 0 <= i < |Pick(fn, w)| ==> Pick(fn, w)[i].ts <= clock
  {
    if w != [] {
      PickOrdered(fn, w[..|w| - 1], w[|w| - 1].ts);
    }
  }

  lemma PickAppend<A, B>(fn: A -> Option<B>, w: seq<Entry<A>>, e: Entry<A>)
    ensures Pick(fn, w + [e]) == Pick(fn, w) + (match fn(e.item) case None => [] case Some(b) => [Entry(e.ts, b)])
  {
    assert (w + [e])[..|w|] == w;
  }

  // ---- WindowBundle ----

  /** The counter holds exactly what the flows in `w` contribute to it. */
  ghost predicate CounterShows(s: Summed, c: Counter, w: seq<Entry<Flow>>) {
    s == SummedOf(Counted(c, w))
  }

  ghost predicate TrackerShows(s: Tallied<Label>, t: Tracker, w: seq<Entry<Flow>>) {
    s.Exact() && s.entries == Tracked(t, w)
  }

  lemma CounterExpires(s: Summed, c: Counter, w: seq<Entry<Flow>>, cutoff: real)
    requires CounterShows(s, c, w) && Ordered(w)
    ensures CounterShows(ExpireValues(s, cutoff), c, Live(w, cutoff))
  {
    if w != [] {
      PickOrdered(AmountFn(c), w, w[|w| - 1].ts);
    }
    PopIsFilter(Counted(c, w), cutoff);
    PickLive(AmountFn(c), w, cutoff);
    ExpireValuesExact(Counted(c, w), cutoff);
  }

  lemma TrackerExpires(s: Tallied<Label>, t: Tracker, w: seq<Entry<Flow>>, cutoff: real)
    requires TrackerShows(s, t, w) && Ordered(w)
    ensures TrackerShows(ExpireKeys(s, cutoff), t, Live(w, cutoff))
  {
    if w != [] {
      PickOrdered(KeyFn(t), w, w[|w| - 1].ts);
    }
    PopIsFilter(Tracked(t, w), cutoff);
    PickLive(KeyFn(t), w, cutoff);
    ExpireKeysExact(s, cutoff);
  }

  const ALL_COUNTERS: set<Counter> :=
    {Flows, Packets, OrigBytes, RespBytes, OrigPackets, RespPackets, SynOnly, Failed, Durations,
     Tcp, Udp, Icmp, DnsQueries, DnsTxt, DnsNxdomain, DnsResponseBytes}

  const ALL_TRACKERS: set<Tracker> := {SrcIps, DstIps, DstPorts, Services, Ja4, DnsNames}

  lemma EveryCounter(c: Counter)
    ensures c in ALL_COUNTERS
  {
    match c {
      case Flows =>
      case Packets =>
      case OrigBytes =>
      case RespBytes =>
      case OrigPackets =>
      case RespPackets =>
      case SynOnly =>
      case Failed =>
      case Durations =>
      case Tcp =>
      case Udp =>
      case Icmp =>
      case DnsQueries =>
      case DnsTxt =>
      case DnsNxdomain =>
      case DnsResponseBytes =>
    }
  }

  lemma EveryTracker(t: Tracker)
    ensures t in ALL_TRACKERS
  {
    match t {
      case SrcIps =>
      case DstIps =>
      case DstPorts =>
      case Services =>
      case Ja4 =>
      case DnsNames =>
    }
  }

  function ObserveCounter(s: Summed, c: Counter, ts: real, f: Flow): Summed {
    match Amount(c, f) case None => s case Some(v) => AddValue(s, Entry(ts, v))
  }

  function ObserveTracker(s: Tallied<Label>, t: Tracker, ts: real, f: Flow): Tallied<Label> {
    match KeyOf(t, f) case None => s case Some(k) => AddKey(s, Entry(ts, k))
  }

  lemma CounterObserves(s: Summed, c: Counter, w: seq<Entry<Flow>>, ts: real, f: Flow)
    requires CounterShows(s, c, w)
    ensures CounterShows(ObserveCounter(s, c, ts, f), c, w + [Entry(ts, f)])
  {
    PickAppend(AmountFn(c), w, Entry(ts, f));
    if Amount(c, f).Some? {
      AddValueExact(Counted(c, w), Entry(ts, Amount(c, f).value));
    } else {
      assert Counted(c, w) + [] == Counted(c, w);
    }
  }

  lemma TrackerObserves(s: Tallied<Label>, t: Tracker, w: seq<Entry<Flow>>, ts: real, f: Flow)
    requires TrackerShows(s, t, w)
    ensures TrackerShows(ObserveTracker(s, t, ts, f), t, w + [Entry(ts, f)])
  {
    PickAppend(KeyFn(t), w, Entry(ts, f));
    if KeyOf(t, f).Some? {
      AddKeyExact(s, Entry(ts, KeyOf(t, f).value));
    } else {
      assert Tracked(t, w) + [] == Tracked(t, w);
    }
  }

  ghost predicate CountersShow(m: map<Counter, Summed>, w: seq<Entry<Flow>>) {
    forall c: Counter :: c in m && CounterShows(m[c], c, w)
  }

  ghost predicate TrackersShow(m: map<Tracker, Tallied<Label>>, w: seq<Entry<Flow>>) {
    forall t: Tracker :: t in m && TrackerShows(m[t], t, w)
  }

  /** Every counter, one after the other, drops its entries up to the cutoff. */
  method ExpireCounters(m: map<Counter, Summed>, ghost w: seq<Entry<Flow>>, cutoff: real)
    returns (r: map<Counter, Summed>)
    requires CountersShow(m, w) && Ordered(w)
    ensures CountersShow(r, Live(w, cutoff))
  {
    r := m;
    ghost var live := Live(w, cutoff);
    var todo := m.Keys;
    while todo != {}
      invariant forall c: Counter :: c in r && CounterShows(r[c], c, if c in todo then w else live)
      decreases todo
    {
      var c :| c in todo;
      CounterExpires(r[c], c, w, cutoff);
      r := r[c := ExpireValues(r[c], cutoff)];
      todo := todo - {c};
    }
  }

  /** Every tracker does the same. */
  method ExpireTrackers(m: map<Tracker, Tallied<Label>>, ghost w: seq<Entry<Flow>>, cutoff: real)
    returns (r: map<Tracker, Tallied<Label>>)
    requires TrackersShow(m, w) && Ordered(w)
    ensures TrackersShow(r, Live(w, cutoff))
  {
    r := m;
    ghost var live := Live(w, cutoff);
    var todo := m.Keys;
    while todo != {}
      invariant forall t: Tracker :: t in r && TrackerShows(r[t], t, if t in todo then w else live)
      decreases todo
    {
      var t :| t in todo;
      TrackerExpires(r[t], t, w, cutoff);
      r := r[t := ExpireKeys(r[t], cutoff)];
      todo := todo - {t};
    }
  }

  /** Fold one flow into every counter it contributes to. */
  method ObserveCounters(m: map<Counter, Summed>, ghost w: seq<Entry<Flow>>, ts: real, f: Flow)
    returns (r: map<Counter, Summed>)
    requires CountersShow(m, w)
    ensures CountersShow(r, w + [Entry(ts, f)])
  {
    r := m;
    ghost var w' := w + [Entry(ts, f)];
    var todo := m.Keys;
    while todo != {}
      invariant forall c: Counter :: c in r && CounterShows(r[c], c, if c in todo then w else w')
      decreases todo
    {
      var c :| c in todo;
      CounterObserves(r[c], c, w, ts, f);
      r := r[c := ObserveCounter(r[c], c, ts, f)];
      todo := todo - {c};
    }
  }

  method ObserveTrackers(m: map<Tracker, Tallied<Label>>, ghost w: seq<Entry<Flow>>, ts: real, f: Flow)
    returns (r: map<Tracker, Tallied<Label>>)
    requires TrackersShow(m, w)
    ensures TrackersShow(r, w + [Entry(ts, f)])
  {
    r := m;
    ghost var w' := w + [Entry(ts, f)];
    var todo := m.Keys;
    while todo != {}
      invariant forall t: Tracker :: t in r && TrackerShows(r[t], t, if t in todo then w else w')
      decreases todo
    {
      var t :| t in todo;
      TrackerObserves(r[t], t, w, ts, f);
      r := r[t := ObserveTracker(r[t], t, ts, f)];
      todo := todo - {t};
    }
  }

  ghost predicate Until(h: seq<Entry<Flow>>, clock: real) {
    forall i :: 0 <= i < |h| ==> h[i].ts <= clock
  }

  /** Both loops of `expire`. */
  method ExpireAll(counters: map<Counter, Summed>, trackers: map<Tracker, Tallied<Label>>, ghost w: seq<Entry<Flow>>,
                   cutoff: real, ghost live: seq<Entry<Flow>>)
    returns (keptCounters: map<Counter, Summed>, keptTrackers: map<Tracker, Tallied<Label>>)
    requires CountersShow(counters, w) && TrackersShow(trackers, w) && Ordered(w) && live == Live(w, cutoff)
    ensures CountersShow(keptCounters, live) && TrackersShow(keptTrackers, live)
  {
    keptCounters := ExpireCounters(counters, w, cutoff);
    keptTrackers := ExpireTrackers(trackers, w, cutoff);
  }

  /** The window of a history at a time. */
  ghost predicate IsWindow(w: seq<Entry<Flow>>, h: seq<Entry<Flow>>, clock: real, size: real) {
    size > 0.0 && Ordered(h) && Until(h, clock) && w == Live(h, clock - size)
  }

  /** Ageing a window of a history again gives the later window of the same history. */
  lemma {:induction false} WindowAges(w: seq<Entry<Flow>>, h: seq<Entry<Flow>>, c: real, now: real, size: real)
    returns (live: seq<Entry<Flow>>)
    requires IsWindow(w, h, c, size) && (h == [] || c <= now)
    ensures live == Live(w, now - size) && IsWindow(live, h, now, size)
  {
    live := Live(h, now - size);
    if h != [] {
      LiveTwice(h, c - size, now - size);
    }
  }

  lemma WindowOrdered(w: seq<Entry<Flow>>, h: seq<Entry<Flow>>, c: real, size: real)
    requires IsWindow(w, h, c, size)
    ensures Ordered(w)
  {
    LiveOrdered(h, c - size);
  }

  /** A flow at the current time joins the window. */
  lemma {:induction false} WindowGrows(w: seq<Entry<Flow>>, h: seq<Entry<Flow>>, c: real, size: real, e: Entry<Flow>)
    returns (joined: seq<Entry<Flow>>)
    requires IsWindow(w, h, c, size) && e.ts == c
    ensures joined == w + [e] && IsWindow(joined, h + [e], c, size)
  {
    joined := w + [e];
    LiveAppend(h, [e], c - size);
    assert [e][..0] == [];
  }

  /** All counters of one entity at one window size. `history` is everything the bundle has counted, `clock` the time
      it is aged to and `window` the flows in the window ending then: `Valid` says every one of its 22 counters
      describes that window. */
  class WindowBundle {
    const size: real
    var counters: map<Counter, Summed>
    var trackers: map<Tracker, Tallied<Label>>
    ghost var history: seq<Entry<Flow>>
    ghost var clock: real
    ghost var window: seq<Entry<Flow>>

    ghost predicate Valid()
      reads this
    {
      && IsWindow(window, history, clock, size)
      && CountersShow(counters, window)
      && TrackersShow(trackers, window)
    }

    constructor (size: real)
      requires size > 0.0
      ensures Valid() && this.size == size && history == [] && clock == 0.0
    {
      this.size := size;
      counters := map c | c in ALL_COUNTERS :: Summed([], 0.0);
      trackers := map t | t in ALL_TRACKERS :: Tallied([], map[]);
      history, clock, window := [], 0.0, [];
      new;
      forall c: Counter ensures c in counters && CounterShows(counters[c], c, window) {
        EveryCounter(c);
      }
      forall t: Tracker ensures t in trackers && TrackerShows(trackers[t], t, window) {
        EveryTracker(t);
      }
    }

    /** Count a flow at the bundle's own time. */
    method Observe(ts: real, f: Flow)
      requires Valid() && ts == clock
      modifies this
      ensures Valid() && history == old(history) + [Entry(ts, f)] && clock == old(clock)
    {
      ghost var joined := WindowGrows(window, history, clock, size, Entry(ts, f));
      var moreCounters := ObserveCounters(counters, window, ts, f);
      var moreTrackers := ObserveTrackers(trackers, window, ts, f);
      counters, trackers, history, window := moreCounters, moreTrackers, history + [Entry(ts, f)], joined;
    }

    /** Every counter and tracker drops what is out of the window. */
    method Expire(now: real)
      requires Valid() && (history == [] || clock <= now)
      modifies this
      ensures Valid() && history == old(history) && clock == now
    {
      WindowOrdered(window, history, clock, size);
      ghost var live := WindowAges(window, history, clock, now, size);
      var keptCounters, keptTrackers := ExpireAll(counters, trackers, window, now - size, live);
      counters, trackers, clock, window := keptCounters, keptTrackers, now, live;
    }

    /** The capped ratios of one emitted vector, read off the counters. */
    function Features(): (r: Ratios)
      requires Valid()
      reads this
      ensures r == RatiosOf(window)
    {
      CardinalityIsDistinct(trackers[DstIps]);
      CardinalityIsDistinct(trackers[DnsNames]);
      var flows := |counters[Flows].entries| as real;
      var queries := |counters[DnsQueries].entries| as real;
      Ratios(
        Ratio(|counters[SynOnly].entries| as real, flows, 1.0),
        Ratio(|counters[Failed].entries| as real, flows, 1.0),
        Ratio(|counters[Tcp].entries| as real, flows, 1.0),
        Ratio(|counters[Udp].entries| as real, flows, 1.0),
        Ratio(|counters[Icmp].entries| as real, flows, 1.0),
        Ratio(|trackers[DstIps].counts| as real, flows, 1.0),
        Ratio(|trackers[DnsNames].counts| as real, queries, 1.0),
        Ratio(|counters[DnsTxt].entries| as real, queries, 1.0),
        Ratio(|counters[DnsNxdomain].entries| as real, queries, 1.0))
    }
  }

  // ---- Ratios ----

  /** `stats.ratio`. */
  function Ratio(n: real, d: real, cap: real): real {
    if d > 0.0 then Min(cap, n / d) else if n > 0.0 then cap else 0.0
  }

  /** The quotient up to the cap; over nothing, the cap if there was something to count and zero if not. */
  lemma RatioCases(n: real, d: real, cap: real)
    ensures d > 0.0 && n / d <= cap ==> Ratio(n, d, cap) * d == n
    ensures d > 0.0 && n / d > cap ==> Ratio(n, d, cap) == cap
    ensures d <= 0.0 && n > 0.0 ==> Ratio(n, d, cap) == cap
    ensures d <= 0.0 && n <= 0.0 ==> Ratio(n, d, cap) == 0.0
  {
  }

  datatype Ratios = Ratios(syn: real, failed: real, tcp: real, udp: real, icmp: real, fanout: real,
                           dnsName: real, dnsTxt: real, dnsNxdomain: real)

  function CountOf(c: Counter, w: seq<Entry<Flow>>): nat { |Counted(c, w)| }
  function DistinctOf(t: Tracker, w: seq<Entry<Flow>>): nat { |KeySet(Tracked(t, w))| }

  function RatiosOf(w: seq<Entry<Flow>>): Ratios {
    var flows, queries := CountOf(Flows, w) as real, CountOf(DnsQueries, w) as real;
    Ratios(
      Ratio(CountOf(SynOnly, w) as real, flows, 1.0), Ratio(CountOf(Failed, w) as real, flows, 1.0),
      Ratio(CountOf(Tcp, w) as real, flows, 1.0), Ratio(CountOf(Udp, w) as real, flows, 1.0),
      Ratio(CountOf(Icmp, w) as real, flows, 1.0), Ratio(DistinctOf(DstIps, w) as real, flows, 1.0),
      Ratio(DistinctOf(DnsNames, w) as real, queries, 1.0), Ratio(CountOf(DnsTxt, w) as real, queries, 1.0),
      Ratio(CountOf(DnsNxdomain, w) as real, queries, 1.0))
  }

  /** A counter fed by fewer flows counts no more. */
  lemma PickNested<A(!new), B, C>(fn: A -> Option<B>, gn: A -> Option<C>, w: seq<Entry<A>>)
    requires forall a :: fn(a).Some? ==> gn(a).Some?
    ensures |Pick(fn, w)| <= |Pick(gn, w)|
  {
  }

  lemma EveryFlowCounts(w: seq<Entry<Flow>>)
    ensures CountOf(Flows, w) == |w|
  {
    if w != [] {
      EveryFlowCounts(w[..|w| - 1]);
    }
  }

  lemma ProtocolsDisjoint(w: seq<Entry<Flow>>)
    ensures CountOf(Tcp, w) + CountOf(Udp, w) + CountOf(Icmp, w) <= |w|
  {
    if w != [] {
      ProtocolsDisjoint(w[..|w| - 1]);
      var f := w[|w| - 1].item;
      assert AmountFn(Tcp)(f) == Amount(Tcp, f) && AmountFn(Udp)(f) == Amount(Udp, f);
      assert AmountFn(Icmp)(f) == Amount(Icmp, f);
    }
  }

  lemma SynIsTcp(w: seq<Entry<Flow>>)
    ensures CountOf(SynOnly, w) <= CountOf(Tcp, w)
  {
    forall f: Flow ensures AmountFn(SynOnly)(f).Some? ==> AmountFn(Tcp)(f).Some? {
      assert AmountFn(SynOnly)(f) == Amount(SynOnly, f) && AmountFn(Tcp)(f) == Amount(Tcp, f);
    }
    PickNested(AmountFn(SynOnly), AmountFn(Tcp), w);
  }

  lemma DnsCountersAreQueries(w: seq<Entry<Flow>>)
    ensures DistinctOf(DnsNames, w) <= CountOf(DnsQueries, w)
    ensures CountOf(DnsTxt, w) <= CountOf(DnsQueries, w)
    ensures CountOf(DnsNxdomain, w) <= CountOf(DnsQueries, w)
  {
    forall f: Flow ensures (KeyFn(DnsNames)(f).Some? || AmountFn(DnsTxt)(f).Some? || AmountFn(DnsNxdomain)(f).Some?)
                           ==> AmountFn(DnsQueries)(f).Some?
    {
      assert KeyFn(DnsNames)(f) == KeyOf(DnsNames, f) && AmountFn(DnsQueries)(f) == Amount(DnsQueries, f);
      assert AmountFn(DnsTxt)(f) == Amount(DnsTxt, f) && AmountFn(DnsNxdomain)(f) == Amount(DnsNxdomain, f);
    }
    KeySetSmall(Tracked(DnsNames, w));
    PickNested(KeyFn(DnsNames), AmountFn(DnsQueries), w);
    PickNested(AmountFn(DnsTxt), AmountFn(DnsQueries), w);
    PickNested(AmountFn(DnsNxdomain), AmountFn(DnsQueries), w);
  }

  lemma DistinctAtMostFlows(t: Tracker, w: seq<Entry<Flow>>)
    ensures DistinctOf(t, w) <= |w|
  {
    PickSize(KeyFn(t), w);
    KeySetSmall(Tracked(t, w));
  }

  /** However the flows in a window fall, the counters it is read through agree with one another. */
  lemma CountersAgree(w: seq<Entry<Flow>>)
    ensures CountOf(Flows, w) == |w|
    ensures CountOf(SynOnly, w) <= CountOf(Tcp, w) && CountOf(Failed, w) <= |w|
    ensures CountOf(Tcp, w) + CountOf(Udp, w) + CountOf(Icmp, w) <= |w|
    ensures DistinctOf(SrcIps, w) <= |w| && DistinctOf(DstIps, w) <= |w|
    ensures CountOf(DnsQueries, w) <= |w|
    ensures DistinctOf(DnsNames, w) <= CountOf(DnsQueries, w)
    ensures CountOf(DnsTxt, w) <= CountOf(DnsQueries, w)
    ensures CountOf(DnsNxdomain, w) <= CountOf(DnsQueries, w)
  {
    EveryFlowCounts(w);
    ProtocolsDisjoint(w);
    SynIsTcp(w);
    PickSize(AmountFn(Failed), w);
    PickSize(AmountFn(DnsQueries), w);
    DistinctAtMostFlows(SrcIps, w);
    DistinctAtMostFlows(DstIps, w);
    DnsCountersAreQueries(w);
  }

  /** A count over a count, with nothing capped. */
  function Share(n: nat, d: nat): real { if d == 0 then 0.0 else n as real / d as real }

  lemma RatioUncapped(n: nat, d: nat)
    requires n <= d
    ensures Ratio(n as real, d as real, 1.0) == Share(n, d)
    ensures 0.0 <= Share(n, d) <= 1.0
  {
    if d > 0 {
      assert n as real / d as real <= 1.0;
    }
  }

  /** The cap of 1.0 never changes an emitted ratio, and the protocol shares never exceed the whole. */
  lemma CapNeverBinds(w: seq<Entry<Flow>>)
    ensures var r, n, q := RatiosOf(w), CountOf(Flows, w), CountOf(DnsQueries, w);
            && r.syn == Share(CountOf(SynOnly, w), n) && r.failed == Share(CountOf(Failed, w), n)
            && r.tcp == Share(CountOf(Tcp, w), n) && r.udp == Share(CountOf(Udp, w), n)
            && r.icmp == Share(CountOf(Icmp, w), n) && r.fanout == Share(DistinctOf(DstIps, w), n)
            && r.dnsName == Share(DistinctOf(DnsNames, w), q) && r.dnsTxt == Share(CountOf(DnsTxt, w), q)
            && r.dnsNxdomain == Share(CountOf(DnsNxdomain, w), q)
            && r.syn <= r.tcp && r.tcp + r.udp + r.icmp <= 1.0
  {
    CountersAgree(w);
    var n, q := CountOf(Flows, w), CountOf(DnsQueries, w);
    RatioUncapped(CountOf(SynOnly, w), n);
    RatioUncapped(CountOf(Failed, w), n);
    RatioUncapped(CountOf(Tcp, w), n);
    RatioUncapped(CountOf(Udp, w), n);
    RatioUncapped(CountOf(Icmp, w), n);
    RatioUncapped(DistinctOf(DstIps, w), n);
    RatioUncapped(DistinctOf(DnsNames, w), q);
    RatioUncapped(CountOf(DnsTxt, w), q);
    RatioUncapped(CountOf(DnsNxdomain, w), q);
    SharesAdd(CountOf(SynOnly, w), CountOf(Tcp, w), CountOf(Udp, w), CountOf(Icmp, w), n);
  }

  lemma QuotientsAdd(a: real, b: real, d: real)
    requires d > 0.0
    ensures a / d + b / d == (a + b) / d
    ensures a <= b ==> a / d <= b / d
  {
    var x, y := a / d, b / d;
    assert x * d == a && y * d == b;
    assert (x + y) * d == a + b;
    assert ((a + b) / d) * d == a + b;
    if a <= b {
      assert (y - x) * d >= 0.0;
    }
  }

  lemma AtMostOne(n: real, d: real)
    requires d > 0.0 && n <= d
    ensures n / d <= 1.0
  {
  }

  lemma ThreeAtMostOne(a: nat, b: nat, c: nat, d: nat)
    requires a + b + c <= d && d > 0
    ensures Share(a, d) + Share(b, d) + Share(c, d) <= 1.0
  {
    var r := d as real;
    QuotientsAdd(a as real, b as real, r);
    QuotientsAdd((a + b) as real, c as real, r);
    AtMostOne((a + b + c) as real, r);
  }

  lemma SharesAdd(s: nat, a: nat, b: nat, c: nat, d: nat)
    requires s <= a && a + b + c <= d
    ensures Share(s, d) <= Share(a, d) && Share(a, d) + Share(b, d) + Share(c, d) <= 1.0
  {
    if d > 0 {
      QuotientsAdd(s as real, a as real, d as real);
      ThreeAtMostOne(a, b, c, d);
    }
  }

  // ---- Windows of different sizes ----

  lemma LiveInside<T(!new)>(w: seq<Entry<T>>, cutoff: real)
    ensures |Live(w, cutoff)| <= |w| && forall e :: e in Live(w, cutoff) ==> e in w
  {
    LiveElements(w, cutoff);
  }

  /** Ageing a window further never raises a count. */
  lemma {:induction false} CountShrinks(w: seq<Entry<Flow>>, cutoff: real, aged: seq<Entry<Flow>>, c: Counter)
    requires aged == Live(w, cutoff)
    ensures CountOf(c, aged) <= CountOf(c, w)
  {
    PickLive(AmountFn(c), w, cutoff);
    LiveInside(Counted(c, w), cutoff);
  }

  lemma {:induction false} DistinctShrinks(w: seq<Entry<Flow>>, cutoff: real, aged: seq<Entry<Flow>>, t: Tracker)
    requires aged == Live(w, cutoff)
    ensures DistinctOf(t, aged) <= DistinctOf(t, w)
  {
    PickLive(KeyFn(t), w, cutoff);
    LiveInside(Tracked(t, w), cutoff);
    KeySetNested(Tracked(t, aged), Tracked(t, w));
  }

  /** Nothing a counter shows at a smaller window size is missing at a larger one. */
  lemma {:induction false} SmallerWindowCountsLess(h: seq<Entry<Flow>>, now: real, small: real, large: real, c: Counter)
    requires small <= large
    ensures CountOf(c, Live(h, now - small)) <= CountOf(c, Live(h, now - large))
  {
    var many, few := Live(h, now - large), Live(h, now - small);
    assert few == Live(many, now - small) by {
      LiveTwice(h, now - large, now - small);
    }
    CountShrinks(many, now - small, few, c);
  }

  lemma {:induction false} SmallerWindowTracksLess(h: seq<Entry<Flow>>, now: real, small: real, large: real, t: Tracker)
    requires small <= large
    ensures DistinctOf(t, Live(h, now - small)) <= DistinctOf(t, Live(h, now - large))
  {
    var many, few := Live(h, now - large), Live(h, now - small);
    assert few == Live(many, now - small) by {
      LiveTwice(h, now - large, now - small);
    }
    DistinctShrinks(many, now - small, few, t);
  }

  lemma KeySetNested<K>(few: seq<Entry<K>>, many: seq<Entry<K>>)
    requires forall e :: e in few ==> e in many
    ensures |KeySet(few)| <= |KeySet(many)|
  {
    forall k | k in KeySet(few) ensures k in KeySet(many) {
      var e :| e in few && e.item == k;
      assert e in many;
    }
    SubsetSize(KeySet(few), KeySet(many));
  }

  // ---- EntityState ----

  const SAMPLES: nat := 64

  function TotalBytes(f: Flow): real { (f.origBytes + OrZero(f.respBytes)) as real }

  function ByteTotals(h: seq<Entry<Flow>>): (r: seq<real>)
    ensures |r| == |h|
    ensures forall i :: 0 <= i < |h| ==>
              r[i] == (h[i].item.origBytes + match h[i].item.respBytes case None => 0 case Some(n) => n) as real
  {
    seq(|h|, i requires 0 <= i < |h| => TotalBytes(h[i].item))
  }

  /** Appending a total and dropping the oldest beyond the limit keeps the last of them. */
  lemma SamplesRoll(h: seq<Entry<Flow>>, e: Entry<Flow>)
    ensures var grown := LastN(ByteTotals(h), SAMPLES) + [TotalBytes(e.item)];
            LastN(ByteTotals(h + [e]), SAMPLES) == if |grown| > SAMPLES then grown[1..] else grown
  {
    assert ByteTotals(h + [e]) == ByteTotals(h) + [TotalBytes(e.item)];
  }

  /** One entity across every window size. `history` is everything it has ever been shown and `clock`
      the time of the last expiry. */
  class EntityState {
    const bundles: seq<WindowBundle>
    var byteSamples: seq<real>
    var eventCount: nat
    var lastSeen: real
    ghost var history: seq<Entry<Flow>>
    ghost var clock: real

    ghost predicate Valid()
      reads this, bundles
    {
      && Distinct(bundles)
      && InStep(history, clock)
      && byteSamples == LastN(ByteTotals(history), SAMPLES)
      && eventCount == |history|
    }

    /** Every bundle has counted the same history and is aged to the same time. */
    ghost predicate InStep(h: seq<Entry<Flow>>, now: real)
      reads this, bundles
    {
      forall i :: 0 <= i < |bundles| ==> bundles[i].Valid() && bundles[i].history == h && bundles[i].clock == now
    }

    constructor (sizes: seq<real>)
      requires forall i :: 0 <= i < |sizes| ==> sizes[i] > 0.0
      ensures Valid() && history == [] && fresh(bundles)
      ensures |bundles| == |sizes| && forall i :: 0 <= i < |sizes| ==> bundles[i].size == sizes[i]
    {
      var made: seq<WindowBundle> := [];
      for i := 0 to |sizes|
        invariant |made| == i && Distinct(made) && fresh(made)
        invariant forall j :: 0 <= j < i ==>
                    made[j].Valid() && made[j].size == sizes[j] && made[j].history == [] && made[j].clock == 0.0
      {
        var b := new WindowBundle(sizes[i]);
        made := made + [b];
      }
      bundles := made;
      byteSamples, eventCount, lastSeen := [], 0, 0.0;
      history, clock := [], 0.0;
    }

    /** Every bundle expires to the flow's own time before it counts the flow. */
    method ObserveBundles(ts: real, f: Flow)
      requires Distinct(bundles) && InStep(history, clock) && (history == [] || clock <= ts)
      modifies bundles
      ensures InStep(history + [Entry(ts, f)], ts)
    {
      for k := 0 to |bundles|
        invariant forall i :: 0 <= i < k ==>
                    bundles[i].Valid() && bundles[i].history == history + [Entry(ts, f)] && bundles[i].clock == ts
        invariant forall i :: k <= i < |bundles| ==>
                    bundles[i].Valid() && bundles[i].history == history && bundles[i].clock == clock
      {
        bundles[k].Expire(ts);
        bundles[k].Observe(ts, f);
      }
    }

    /** The entity's own counters and samples. */
    method Count(ts: real, f: Flow)
      requires byteSamples == LastN(ByteTotals(history), SAMPLES) && eventCount == |history|
      modifies this
      ensures byteSamples == LastN(ByteTotals(history), SAMPLES) && eventCount == |history|
      ensures history == old(history) + [Entry(ts, f)] && clock == ts && lastSeen == ts
    {
      SamplesRoll(history, Entry(ts, f));
      byteSamples := byteSamples + [TotalBytes(f)];
      if |byteSamples| > SAMPLES {
        byteSamples := byteSamples[1..];
      }
      eventCount := eventCount + 1;
      lastSeen := ts;
      history, clock := history + [Entry(ts, f)], ts;
    }

    method Observe(ts: real, f: Flow)
      requires Valid() && (history == [] || clock <= ts)
      modifies this, bundles
      ensures Valid() && history == old(history) + [Entry(ts, f)] && clock == ts && lastSeen == ts
      ensures |byteSamples| == if |history| <= 64 then |history| else 64
    {
      ObserveBundles(ts, f);
      Count(ts, f);
    }

    /** `FeatureEngine.flush` ages every bundle without adding anything. */
    method Expire(now: real)
      requires Valid() && (history == [] || clock <= now)
      modifies this, bundles
      ensures Valid() && history == old(history) && clock == now
    {
      for k := 0 to |bundles|
        invariant forall i :: 0 <= i < k ==>
                    bundles[i].Valid() && bundles[i].history == history && bundles[i].clock == now
        invariant forall i :: k <= i < |bundles| ==>
                    bundles[i].Valid() && bundles[i].history == history && bundles[i].clock == clock
        invariant unchanged(this)
      {
        bundles[k].Expire(now);
      }
      clock := now;
    }
  }
}
