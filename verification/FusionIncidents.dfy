/** Incidents follow runs of activity: one id, a growing list of alerts, and a new id after an idle gap. */
module FusionIncidents {
  import opened Common
  import opened Fusion
  import opened FusionHistory
  import opened FusionFacts

  /** The `k`-th fused result is the first about its subject for longer than the idle time. */
  ghost predicate AfterGap(cfg: Config, h: History, k: nat)
    requires k < |h|
  {
    forall m :: 0 <= m < k && h[m].subject == h[k].subject ==> h[k].ts - h[m].ts > cfg.idle
  }

  /** The subject has been active without an idle gap from the `i`-th result to the end of the history. */
  ghost predicate NoGapSince(cfg: Config, h: History, subject: Name, i: nat) {
    forall k :: i < k < |h| && h[k].subject == subject ==> !AfterGap(cfg, h, k)
  }

  /** The same between the `i`-th result and a later one, `j`. */
  ghost predicate ActiveBetween(cfg: Config, h: History, i: nat, j: nat)
    requires i <= j < |h|
  {
    forall k :: i < k <= j && h[k].subject == h[i].subject ==> !AfterGap(cfg, h, k)
  }

  lemma ActivePrefix(cfg: Config, h: History, i: nat, j: nat)
    requires i <= j < |h| && ActiveBetween(cfg, h, i, j)
    ensures i < j ==> NoGapSince(cfg, h[..j], h[i].subject, i)
    ensures NoGapSince(cfg, h[..j + 1], h[i].subject, i)
  {
    GapPrefix(cfg, h, j);
    GapPrefix(cfg, h, j + 1);
  }

  lemma GapIff(cfg: Config, h: History, k: nat)
    requires Timed(h) && k < |h|
    ensures AfterGap(cfg, h, k) <==> !Continues(cfg, Generation(cfg, h[..k], h[k].subject), h[k].ts)
  {
    ContinuesIff(cfg, h[..k], h[k].subject, h[k].ts);
    forall m | 0 <= m < k ensures h[m] in h[..k] {
      assert h[..k][m] == h[m];
    }
  }

  lemma GapPrefix(cfg: Config, h: History, n: nat)
    requires n <= |h|
    ensures forall k :: 0 <= k < n ==> AfterGap(cfg, h, k) == AfterGap(cfg, h[..n], k)
  {
    forall k | 0 <= k < n ensures AfterGap(cfg, h, k) == AfterGap(cfg, h[..n], k) {
      assert forall m :: 0 <= m <= k ==> h[..n][m] == h[m];
    }
  }

  lemma {:induction false} RunKeepsOnce(cfg: Config, h: History, subject: Name)
    requires cfg.Valid() && h != []
    requires var front, r := h[..|h| - 1], h[|h| - 1];
             r.subject == subject ==> Continues(cfg, Generation(cfg, front, subject), r.ts)
    ensures var front, r := h[..|h| - 1], h[|h| - 1];
            && (IncidentOf(cfg, front, subject).Some? ==>
                  IncidentOf(cfg, h, subject) == IncidentOf(cfg, front, subject))
            && AlertsOf(cfg, h, subject) == AlertsOf(cfg, front, subject) +
                 (if r.subject == subject && Opens(cfg, front, r) then [IdOf(cfg, r)] else [])
  {
  }

  lemma NoGapFront(cfg: Config, h: History, subject: Name, i: nat)
    requires Timed(h) && i < |h| - 1 && NoGapSince(cfg, h, subject, i)
    ensures var front, r := h[..|h| - 1], h[|h| - 1];
            && NoGapSince(cfg, front, subject, i)
            && (r.subject == subject ==> Continues(cfg, Generation(cfg, front, subject), r.ts))
  {
    GapPrefix(cfg, h, |h| - 1);
    GapIff(cfg, h, |h| - 1);
  }

  /** While a subject stays active its incident keeps its id and its alerts only grow. */
  lemma {:induction false} RunKeeps(cfg: Config, h: History, i: nat)
    requires cfg.Valid() && Timed(h) && i < |h| && NoGapSince(cfg, h, h[i].subject, i)
    ensures IncidentOf(cfg, h[..i + 1], h[i].subject).Some? ==>
              IncidentOf(cfg, h, h[i].subject) == IncidentOf(cfg, h[..i + 1], h[i].subject)
    ensures AlertsOf(cfg, h[..i + 1], h[i].subject) <= AlertsOf(cfg, h, h[i].subject)
  {
    if i == |h| - 1 {
      assert h[..i + 1] == h;
    } else {
      var front := h[..|h| - 1];
      NoGapFront(cfg, h, h[i].subject, i);
      assert front[..i + 1] == h[..i + 1] && front[i] == h[i];
      RunKeeps(cfg, front, i);
      RunKeepsOnce(cfg, h, h[i].subject);
    }
  }

  /** The incident an alert goes with, in terms of the state its result leaves behind. */
  lemma IncidentLeft(cfg: Config, h: History, j: nat)
    requires cfg.Valid() && j < |h| && OpensAt(cfg, h, j)
    ensures AlertsOf(cfg, h[..j + 1], h[j].subject) == AlertsBefore(cfg, h[..j], h[j]) + [IdOf(cfg, h[j])]
    ensures var w := IncidentWith(cfg, h[..j], h[j]);
            w.Some? ==> && IncidentOf(cfg, h[..j + 1], h[j].subject) == Some(w.value.id)
                        && w.value.alertCount == |AlertsOf(cfg, h[..j + 1], h[j].subject)|
                        && w.value.alertIds == LastN(AlertsOf(cfg, h[..j + 1], h[j].subject), INCIDENT_ALERTS)
  {
    assert h[..j + 1][..j] == h[..j] && h[..j + 1][j] == h[j];
  }

  /** The `i`-th fused result raises an alert that goes with an incident. */
  ghost predicate RaisesIncident(cfg: Config, h: History, i: nat)
    requires cfg.Valid() && i < |h|
  {
    OpensAt(cfg, h, i) && IncidentWith(cfg, h[..i], h[i]).Some?
  }

  /** What a result leaves behind is still there when a later one of the same run of activity is fused. */
  lemma {:induction false} RunCarries(cfg: Config, h: History, i: nat, j: nat)
    requires cfg.Valid() && Timed(h) && i < j < |h| && h[i].subject == h[j].subject && ActiveBetween(cfg, h, i, j)
    ensures AlertsOf(cfg, h[..i + 1], h[i].subject) <= AlertsBefore(cfg, h[..j], h[j])
    ensures IncidentOf(cfg, h[..i + 1], h[i].subject).Some? ==>
              IncidentBefore(cfg, h[..j], h[j]) == IncidentOf(cfg, h[..i + 1], h[i].subject)
  {
    ActivePrefix(cfg, h, i, j);
    assert h[..j][..i + 1] == h[..i + 1] && h[..j][i] == h[i];
    RunKeeps(cfg, h[..j], i);
    GapIff(cfg, h, j);
  }

  /** Two incidents of one subject with no idle gap between them: the same incident, with more alerts. */
  lemma {:induction false} SameRunSameIncident(cfg: Config, h: History, i: nat, j: nat)
    requires cfg.Valid() && Timed(h) && i < j < |h| && h[i].subject == h[j].subject
    requires RaisesIncident(cfg, h, i)
    requires RaisesIncident(cfg, h, j)
    requires ActiveBetween(cfg, h, i, j)
    ensures var first, later := IncidentWith(cfg, h[..i], h[i]).value, IncidentWith(cfg, h[..j], h[j]).value;
            first.id == later.id && first.alertCount < later.alertCount
  {
    IncidentLeft(cfg, h, i);
    IncidentLeft(cfg, h, j);
    RunCarries(cfg, h, i, j);
  }

  /** An incident id is drawn while fusing a result of the subject's current run. */
  lemma {:induction false} IncidentDrawn(cfg: Config, h: History, subject: Name) returns (m: nat)
    requires cfg.Valid() && Timed(h) && IncidentOf(cfg, h, subject).Some?
    ensures m < |h| && h[m].subject == subject && IncidentOf(cfg, h, subject) == Some(h[m].draw)
    ensures NoGapSince(cfg, h, subject, m)
  {
    var front, r := h[..|h| - 1], h[|h| - 1];
    if r.subject == subject && IncidentBefore(cfg, front, r).None? {
      m := |h| - 1;
    } else {
      m := IncidentDrawn(cfg, front, subject);
      GapPrefix(cfg, h, |h| - 1);
      GapIff(cfg, h, |h| - 1);
      forall k | m < k < |h| && h[k].subject == subject ensures !AfterGap(cfg, h, k) {
        if k < |h| - 1 {
          assert front[k] == h[k];
        }
      }
    }
  }

  /** Two incidents of one subject with an idle gap between them carry different ids. */
  lemma NewRunNewIncident(cfg: Config, h: History, i: nat, k: nat, j: nat)
    requires cfg.Valid() && Timed(h) && i < k <= j < |h| && h[i].subject == h[k].subject == h[j].subject
    requires AfterGap(cfg, h, k)
    requires RaisesIncident(cfg, h, i)
    requires RaisesIncident(cfg, h, j)
    requires forall a, b :: 0 <= a < b < |h| ==> h[a].draw != h[b].draw
    ensures IncidentWith(cfg, h[..i], h[i]).value.id != IncidentWith(cfg, h[..j], h[j]).value.id
  {
    IncidentLeft(cfg, h, i);
    IncidentLeft(cfg, h, j);
    var m := IncidentDrawn(cfg, h[..i + 1], h[i].subject);
    var m' := IncidentDrawn(cfg, h[..j + 1], h[j].subject);
    var upto := h[..j + 1];
    assert upto[k] == h[k] && upto[m'] == h[m'] && h[..i + 1][m] == h[m];
    GapPrefix(cfg, h, j + 1);
    assert k <= m';
  }

  /** The alerts opened about a subject by the results from index `s` on. */
  function OpenedFrom(cfg: Config, h: History, subject: Name, s: nat): seq<AlertId>
    requires cfg.Valid()
  {
    if |h| <= s then []
    else
      var front, r := h[..|h| - 1], h[|h| - 1];
      OpenedFrom(cfg, front, subject, s) + (if r.subject == subject && Opens(cfg, front, r) then [IdOf(cfg, r)] else [])
  }

  lemma {:induction false} OpenedNothing(cfg: Config, h: History, subject: Name, s: nat)
    requires cfg.Valid() && s < |h| && h[s].subject == subject
    ensures OpenedFrom(cfg, h[..s + 1], subject, s) == if OpensAt(cfg, h, s) then [IdOf(cfg, h[s])] else []
  {
    assert h[..s + 1][..s] == h[..s];
  }

  lemma {:induction false} StartsAfresh(cfg: Config, h: History)
    requires cfg.Valid() && Timed(h) && h != [] && AfterGap(cfg, h, |h| - 1)
    ensures AlertsOf(cfg, h, h[|h| - 1].subject) ==
            if OpensAt(cfg, h, |h| - 1) then [IdOf(cfg, h[|h| - 1])] else []
  {
    GapIff(cfg, h, |h| - 1);
  }

  /** A subject's alert list is what was opened since its current run of activity began at `s`. */
  lemma {:induction false} AlertsSinceGap(cfg: Config, h: History, s: nat)
    requires cfg.Valid() && Timed(h) && s < |h| && AfterGap(cfg, h, s) && NoGapSince(cfg, h, h[s].subject, s)
    ensures AlertsOf(cfg, h, h[s].subject) == OpenedFrom(cfg, h, h[s].subject, s)
  {
    var subject := h[s].subject;
    if s == |h| - 1 {
      StartsAfresh(cfg, h);
      assert h[..s + 1] == h;
      OpenedNothing(cfg, h, subject, s);
    } else {
      var front := h[..|h| - 1];
      NoGapFront(cfg, h, subject, s);
      GapPrefix(cfg, h, |h| - 1);
      assert front[s] == h[s];
      AlertsSinceGap(cfg, front, s);
      RunKeepsOnce(cfg, h, subject);
    }
  }

  /** The incident that goes with an alert lists the last 512 alerts of the subject's run of activity, which
      began at `s`, the new alert last; and spans at least two threat classes, the alert's own included. */
  lemma {:induction false} IncidentListsRun(cfg: Config, h: History, s: nat, j: nat)
    requires cfg.Valid() && Timed(h) && s <= j < |h| && h[s].subject == h[j].subject
    requires AfterGap(cfg, h, s) && ActiveBetween(cfg, h, s, j)
    requires RaisesIncident(cfg, h, j)
    ensures var incident, raised := IncidentWith(cfg, h[..j], h[j]).value, OpenedFrom(cfg, h[..j + 1], h[s].subject, s);
            && |incident.alertIds| == (if |raised| <= 512 then |raised| else 512) && incident.alertCount == |raised|
            && incident.alertIds == raised[|raised| - |incident.alertIds|..]
            && incident.alertIds != [] && incident.alertIds[|incident.alertIds| - 1] == IdOf(cfg, h[j])
            && |incident.classes| >= 2 && h[j].threat in incident.classes && incident.lastSeen == h[j].ts
  {
    ListsRaised(cfg, h, s, j);
    IncidentSpans(cfg, h[..j], h[j]);
  }

  lemma {:induction false} ListsRaised(cfg: Config, h: History, s: nat, j: nat)
    requires cfg.Valid() && Timed(h) && s <= j < |h| && h[s].subject == h[j].subject
    requires AfterGap(cfg, h, s) && ActiveBetween(cfg, h, s, j)
    requires RaisesIncident(cfg, h, j)
    ensures var incident, raised := IncidentWith(cfg, h[..j], h[j]).value, OpenedFrom(cfg, h[..j + 1], h[s].subject, s);
            incident.alertIds == LastN(raised, 512) && incident.alertCount == |raised|
  {
    IncidentLeft(cfg, h, j);
    var upto := h[..j + 1];
    assert upto[s] == h[s];
    GapPrefix(cfg, h, j + 1);
    ActivePrefix(cfg, h, s, j);
    AlertsSinceGap(cfg, upto, s);
  }

  lemma {:induction false} IncidentSpans(cfg: Config, h: History, r: Result)
    requires cfg.Valid() && IncidentWith(cfg, h, r).Some?
    ensures var incident := IncidentWith(cfg, h, r).value;
            && incident.alertIds != [] && incident.alertIds[|incident.alertIds| - 1] == IdOf(cfg, r)
            && |incident.classes| >= 2 && r.threat in incident.classes && incident.lastSeen == r.ts
  {
    var recent := Recent(cfg, h, r);
    assert recent[|recent| - 1] == r;
  }

  lemma {:induction false} RunBegins(cfg: Config, h: History, s: nat)
    requires cfg.Valid() && Timed(h) && s < |h| && AfterGap(cfg, h, s) && NoGapSince(cfg, h, h[s].subject, s)
    ensures var run := Generation(cfg, h, h[s].subject); run != [] && run[0] == h[s]
  {
    if s == |h| - 1 {
      GapIff(cfg, h, s);
    } else {
      var front := h[..|h| - 1];
      NoGapFront(cfg, h, h[s].subject, s);
      GapPrefix(cfg, h, |h| - 1);
      assert front[s] == h[s];
      RunBegins(cfg, front, s);
    }
  }

  /** An incident's first-seen time is when the subject's run of activity began, before any alert of it. */
  lemma IncidentBegins(cfg: Config, h: History, s: nat, j: nat)
    requires cfg.Valid() && Timed(h) && s <= j < |h| && h[s].subject == h[j].subject && h[s].ts > 0.0
    requires AfterGap(cfg, h, s) && ActiveBetween(cfg, h, s, j)
    requires IncidentWith(cfg, h[..j], h[j]).Some?
    ensures IncidentWith(cfg, h[..j], h[j]).value.firstSeen == h[s].ts
  {
    GapIff(cfg, h, j);
    if s < j {
      ActivePrefix(cfg, h, s, j);
      GapPrefix(cfg, h, j);
      assert h[..j][s] == h[s];
      RunBegins(cfg, h[..j], s);
    }
  }

  /** An incident is named for a most severe result in view, the most confident of those, the earliest on
      a tie. */
  lemma {:induction false} PrimaryIsWorst(rs: seq<Result>) returns (i: nat)
    requires rs != []
    ensures i < |rs| && Primary(rs) == rs[i]
    ensures forall k :: 0 <= k < |rs| ==>
              || Rank(rs[k].hint) < Rank(rs[i].hint)
              || (Rank(rs[k].hint) == Rank(rs[i].hint) && rs[k].confidence < rs[i].confidence)
              || (Rank(rs[k].hint) == Rank(rs[i].hint) && rs[k].confidence == rs[i].confidence && i <= k)
  {
    if |rs| == 1 {
      i := 0;
    } else {
      var last := rs[|rs| - 1];
      i := PrimaryIsWorst(rs[..|rs| - 1]);
      if Primary(rs) == last && Primary(rs[..|rs| - 1]) != last {
        i := |rs| - 1;
      }
    }
  }
}
