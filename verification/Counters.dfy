/** What the 22 counters and trackers of a window say about its flows, field by field. */
module Counters {
  import opened Common
  import opened Windows
  import opened Features

  /** How many flows of the window have a property. */
  function HowMany(w: seq<Entry<Flow>>, p: Flow -> bool): nat {
    if w == [] then 0 else HowMany(w[..|w| - 1], p) + (if p(w[|w| - 1].item) then 1 else 0)
  }

  /** The sum of an amount over the flows of the window. */
  function SumOver(w: seq<Entry<Flow>>, v: Flow -> real): real {
    if w == [] then 0.0 else SumOver(w[..|w| - 1], v) + v(w[|w| - 1].item)
  }

  /** The labels that the flows of the window carry. */
  function LabelsOf(w: seq<Entry<Flow>>, mark: Flow -> Option<Label>): set<Label> {
    set e | e in w && mark(e.item).Some? :: mark(e.item).value
  }

  lemma {:induction false} CountIs(c: Counter, w: seq<Entry<Flow>>, p: Flow -> bool)
    requires forall f: Flow :: Amount(c, f).Some? <==> p(f)
    ensures CountOf(c, w) == HowMany(w, p)
  {
    if w != [] {
      var front, f := w[..|w| - 1], w[|w| - 1].item;
      CountIs(c, front, p);
      assert AmountFn(c)(f) == Amount(c, f) && (Amount(c, f).Some? <==> p(f));
    }
  }

  lemma {:induction false} SumIs(c: Counter, w: seq<Entry<Flow>>, v: Flow -> real)
    requires forall f: Flow :: Amount(c, f).Some? ==> Amount(c, f).value == v(f)
    requires forall f: Flow :: Amount(c, f).None? ==> v(f) == 0.0
    ensures Sum(Counted(c, w)) == SumOver(w, v)
  {
    if w != [] {
      var front, last := w[..|w| - 1], w[|w| - 1];
      SumIs(c, front, v);
      assert AmountFn(c)(last.item) == Amount(c, last.item);
      assert Amount(c, last.item).Some? ==> Amount(c, last.item).value == v(last.item);
      if Amount(c, last.item).Some? {
        var more := Counted(c, front) + [Entry(last.ts, v(last.item))];
        assert Counted(c, w) == more && more[..|more| - 1] == Counted(c, front);
      } else {
        assert Counted(c, w) == Counted(c, front) + [];
        assert Counted(c, front) + [] == Counted(c, front);
      }
    }
  }

  lemma {:induction false} LabelsAre(t: Tracker, w: seq<Entry<Flow>>, mark: Flow -> Option<Label>)
    requires forall f: Flow :: Features.KeyOf(t, f) == mark(f)
    ensures KeySet(Tracked(t, w)) == LabelsOf(w, mark)
  {
    if w != [] {
      var front, last := w[..|w| - 1], w[|w| - 1];
      LabelsAre(t, front, mark);
      assert w == front + [last];
      assert KeyFn(t)(last.item) == Features.KeyOf(t, last.item) && Features.KeyOf(t, last.item) == mark(last.item);
      var tail := match mark(last.item) case None => [] case Some(b) => [Entry(last.ts, b)];
      assert Tracked(t, w) == Tracked(t, front) + tail;
      assert KeySet(Tracked(t, w)) == KeySet(Tracked(t, front)) + KeySet(tail);
      assert LabelsOf(w, mark) == LabelsOf(front, mark) + KeySet(tail);
    }
  }

  // ---- Counts ----

  /** How many flows each of these counters has counted: all, by protocol, never established, without a response, and
      with a duration. */
  lemma {:induction false} FlowCounts(w: seq<Entry<Flow>>)
    ensures CountOf(Flows, w) == |w|
    ensures CountOf(Tcp, w) == HowMany(w, (f: Flow) => f.protocol == TCP)
    ensures CountOf(Udp, w) == HowMany(w, (f: Flow) => f.protocol == UDP)
    ensures CountOf(Icmp, w) == HowMany(w, (f: Flow) => f.protocol == ICMP)
    ensures CountOf(Durations, w) == HowMany(w, (f: Flow) => f.duration.Some?)
  {
    EveryFlowCounts(w);
    CountIs(Tcp, w, (f: Flow) => f.protocol == TCP);
    CountIs(Udp, w, (f: Flow) => f.protocol == UDP);
    CountIs(Icmp, w, (f: Flow) => f.protocol == ICMP);
    CountIs(Durations, w, (f: Flow) => f.duration.Some?);
  }

  /** A TCP flow in a state short of established, or with a SYN flag and no packet back. */
  lemma {:induction false} SynCounts(w: seq<Entry<Flow>>)
    ensures CountOf(SynOnly, w) ==
            HowMany(w, (f: Flow) =>
              && f.protocol == TCP
              && (|| f.state in {Some("S0"), Some("REJ"), Some("RSTOS0"), Some("SH"), Some("SHR")}
                  || ('S' in UpperOr(f.tcpFlags) && OrZero(f.respPackets) == 0)))
  {
    CountIs(SynOnly, w, (f: Flow) =>
      && f.protocol == TCP
      && (|| f.state in {Some("S0"), Some("REJ"), Some("RSTOS0"), Some("SH"), Some("SHR")}
          || ('S' in UpperOr(f.tcpFlags) && OrZero(f.respPackets) == 0)));
  }

  /** An attempt in a failed state, or with nothing back at all. */
  lemma {:induction false} FailedCounts(w: seq<Entry<Flow>>)
    ensures CountOf(Failed, w) ==
            HowMany(w, (f: Flow) =>
              || f.state in {Some("S0"), Some("REJ"), Some("RSTOS0"), Some("SH")}
              || (OrZero(f.respPackets) == 0 && OrZero(f.respBytes) == 0))
  {
    CountIs(Failed, w, (f: Flow) =>
      || f.state in {Some("S0"), Some("REJ"), Some("RSTOS0"), Some("SH")}
      || (OrZero(f.respPackets) == 0 && OrZero(f.respBytes) == 0));
  }

  lemma {:induction false} DnsCounts(w: seq<Entry<Flow>>)
    ensures CountOf(DnsQueries, w) == HowMany(w, (f: Flow) => f.dns.Some?)
    ensures CountOf(DnsTxt, w) ==
            HowMany(w, (f: Flow) => f.dns.Some? && UpperOr(f.dns.value.qtype) in {"TXT", "NULL", "CNAME"})
    ensures CountOf(DnsNxdomain, w) ==
            HowMany(w, (f: Flow) => f.dns.Some? && UpperOr(f.dns.value.rcode) in {"NXDOMAIN", "3"})
    ensures CountOf(DnsResponseBytes, w) ==
            HowMany(w, (f: Flow) => f.dns.Some? && OrZero(f.dns.value.responseBytes) > 0)
  {
    CountIs(DnsQueries, w, (f: Flow) => f.dns.Some?);
    CountIs(DnsTxt, w, (f: Flow) => f.dns.Some? && UpperOr(f.dns.value.qtype) in {"TXT", "NULL", "CNAME"});
    CountIs(DnsNxdomain, w, (f: Flow) => f.dns.Some? && UpperOr(f.dns.value.rcode) in {"NXDOMAIN", "3"});
    CountIs(DnsResponseBytes, w, (f: Flow) => f.dns.Some? && OrZero(f.dns.value.responseBytes) > 0);
  }

  // ---- Sums ----

  /** A missing number counts zero. */
  function Given(n: Option<nat>): real {
    if n.Some? then n.value as real else 0.0
  }

  /** The packet and byte totals are sums over the flows, a missing response counting zero. */
  lemma {:induction false} TrafficSums(w: seq<Entry<Flow>>)
    ensures Sum(Counted(OrigBytes, w)) == SumOver(w, (f: Flow) => f.origBytes as real)
    ensures Sum(Counted(RespBytes, w)) == SumOver(w, (f: Flow) => Given(f.respBytes))
    ensures Sum(Counted(OrigPackets, w)) == SumOver(w, (f: Flow) => f.origPackets as real)
    ensures Sum(Counted(RespPackets, w)) ==
            SumOver(w, (f: Flow) => Given(f.respPackets))
    ensures Sum(Counted(Packets, w)) ==
            SumOver(w, (f: Flow) => f.origPackets as real + Given(f.respPackets))
  {
    SumIs(OrigBytes, w, (f: Flow) => f.origBytes as real);
    SumIs(RespBytes, w, (f: Flow) => Given(f.respBytes));
    SumIs(OrigPackets, w, (f: Flow) => f.origPackets as real);
    SumIs(RespPackets, w, (f: Flow) => Given(f.respPackets));
    SumIs(Packets, w, (f: Flow) => f.origPackets as real + Given(f.respPackets));
  }

  lemma {:induction false} OtherSums(w: seq<Entry<Flow>>)
    ensures Sum(Counted(Durations, w)) == SumOver(w, (f: Flow) => if f.duration.Some? then f.duration.value else 0.0)
    ensures Sum(Counted(DnsResponseBytes, w)) ==
            SumOver(w, (f: Flow) => if f.dns.Some? then Given(f.dns.value.responseBytes) else 0.0)
  {
    SumIs(Durations, w, (f: Flow) => if f.duration.Some? then f.duration.value else 0.0);
    SumIs(DnsResponseBytes, w, (f: Flow) => if f.dns.Some? then Given(f.dns.value.responseBytes) else 0.0);
  }

  // ---- Distinct keys ----

  function Nonempty(s: Option<string>): Option<Label> {
    if s.Some? && s.value != "" then Some(Text(s.value)) else None
  }

  /** The addresses, ports, services, fingerprints and names the trackers hold are those of the flows; an empty string
      is no name. */
  lemma {:induction false} Labels(w: seq<Entry<Flow>>)
    ensures KeySet(Tracked(SrcIps, w)) == LabelsOf(w, (f: Flow) => Some(Text(f.srcIp)))
    ensures KeySet(Tracked(DstIps, w)) == LabelsOf(w, (f: Flow) => Some(Text(f.dstIp)))
    ensures KeySet(Tracked(DstPorts, w)) ==
            LabelsOf(w, (f: Flow) => if f.dstPort.Some? then Some(Port(f.dstPort.value)) else None)
    ensures KeySet(Tracked(Services, w)) == LabelsOf(w, (f: Flow) => Nonempty(f.service))
    ensures KeySet(Tracked(Ja4, w)) == LabelsOf(w, (f: Flow) => Nonempty(f.ja4))
    ensures KeySet(Tracked(DnsNames, w)) ==
            LabelsOf(w, (f: Flow) => if f.dns.Some? then Nonempty(f.dns.value.query) else None)
  {
    LabelsAre(SrcIps, w, (f: Flow) => Some(Text(f.srcIp)));
    LabelsAre(DstIps, w, (f: Flow) => Some(Text(f.dstIp)));
    LabelsAre(DstPorts, w, (f: Flow) => if f.dstPort.Some? then Some(Port(f.dstPort.value)) else None);
    LabelsAre(Services, w, (f: Flow) => Nonempty(f.service));
    LabelsAre(Ja4, w, (f: Flow) => Nonempty(f.ja4));
    LabelsAre(DnsNames, w, (f: Flow) => if f.dns.Some? then Nonempty(f.dns.value.query) else None);
  }
}
