/** The tables a worker writes to, keyed as the database keys them: events and alerts are inserted once and
    repeats ignored, incidents are replaced, detector results are only appended. */
module Store {
  import opened Common
  import opened Fusion

  /** A normalized event; `body` stands for every column but the key and the time. */
  datatype Event = Event(id: nat, epoch: real, body: nat)

  datatype AlertRow = AlertRow(alert: Alert, lastSeen: real, dedupCount: nat, eventCount: nat)

  datatype AuditRow = Created(ts: real, id: AlertId) | Deduped(ts: real, id: AlertId, count: nat)

  datatype Tables = Tables(events: map<nat, Event>, alerts: map<AlertId, AlertRow>, audit: seq<AuditRow>,
                           incidents: map<nat, Incident>, results: seq<Result>)

  /** How many events are buffered before they are written. */
  const CHUNK := 500

  const EMPTY := Tables(map[], map[], [], map[], [])

  // ---- Events: INSERT OR IGNORE ----

  function AddEvent(t: map<nat, Event>, e: Event): map<nat, Event> {
    if e.id in t then t else t[e.id := e]
  }

  function AddEvents(t: map<nat, Event>, es: seq<Event>): map<nat, Event> {
    if es == [] then t else AddEvent(AddEvents(t, es[..|es| - 1]), es[|es| - 1])
  }

  // ---- Alerts: INSERT OR IGNORE, then UPDATE by id ----

  function NewRow(a: Alert): AlertRow { AlertRow(a, a.ts, 1, 1) }

  function AddAlert(t: map<AlertId, AlertRow>, e: Emission): map<AlertId, AlertRow> {
    if e.Raised? && e.alert.id !in t then t[e.alert.id := NewRow(e.alert)] else t
  }

  function AddAlerts(t: map<AlertId, AlertRow>, out: seq<Emission>): map<AlertId, AlertRow> {
    if out == [] then t else AddAlert(AddAlerts(t, out[..|out| - 1]), out[|out| - 1])
  }

  /** The audit rows of inserting the alerts: one for each that was not already there. */
  function CreatedRows(t: map<AlertId, AlertRow>, out: seq<Emission>): seq<AuditRow> {
    if out == [] then []
    else
      var front, e := out[..|out| - 1], out[|out| - 1];
      CreatedRows(t, front) +
      (if e.Raised? && e.alert.id !in AddAlerts(t, front) then [Created(e.alert.ts, e.alert.id)] else [])
  }

  function TouchRow(t: map<AlertId, AlertRow>, e: Emission): map<AlertId, AlertRow> {
    if e.Touched? && e.touch.id in t
    then t[e.touch.id := t[e.touch.id].(lastSeen := e.touch.lastSeen, dedupCount := e.touch.dedupCount,
                                        eventCount := e.touch.eventCount)]
    else t
  }

  function TouchRows(t: map<AlertId, AlertRow>, out: seq<Emission>): map<AlertId, AlertRow> {
    if out == [] then t else TouchRow(TouchRows(t, out[..|out| - 1]), out[|out| - 1])
  }

  function DedupedRows(out: seq<Emission>): seq<AuditRow> {
    if out == [] then []
    else
      var e := out[|out| - 1];
      DedupedRows(out[..|out| - 1]) +
      (if e.Touched? then [Deduped(e.touch.lastSeen, e.touch.id, e.touch.dedupCount)] else [])
  }

  // ---- Incidents: INSERT OR REPLACE ----

  function PutIncident(t: map<nat, Incident>, e: Emission): map<nat, Incident> {
    if e.Raised? && e.incident.Some? then t[e.incident.value.id := e.incident.value] else t
  }

  function PutIncidents(t: map<nat, Incident>, out: seq<Emission>): map<nat, Incident> {
    if out == [] then t else PutIncident(PutIncidents(t, out[..|out| - 1]), out[|out| - 1])
  }

  /** `_apply_outcome`: all the alerts of an outcome, then all its touches, then its incidents. */
  function Applied(t: Tables, out: seq<Emission>): Tables {
    t.(alerts := TouchRows(AddAlerts(t.alerts, out), out),
       audit := t.audit + CreatedRows(t.alerts, out) + DedupedRows(out),
       incidents := PutIncidents(t.incidents, out))
  }

  class Database {
    var events: map<nat, Event>
    var alerts: map<AlertId, AlertRow>
    var audit: seq<AuditRow>
    var incidents: map<nat, Incident>
    var results: seq<Result>

    ghost function Model(): Tables
      reads this
    {
      Tables(events, alerts, audit, incidents, results)
    }

    constructor ()
      ensures Model() == EMPTY
    {
      events, alerts, audit, incidents, results := map[], map[], [], map[], [];
    }

    /** Insert the rows whose key is new; report how many those were. */
    method InsertEvents(rows: seq<Event>) returns (inserted: nat)
      modifies this`events
      ensures events == AddEvents(old(events), rows)
      ensures inserted == |events| - |old(events)|
    {
      inserted := 0;
      for i := 0 to |rows|
        invariant events == AddEvents(old(events), rows[..i])
        invariant inserted == |events| - |old(events)|
      {
        assert rows[..i + 1][..i] == rows[..i];
        if rows[i].id !in events {
          events := events[rows[i].id := rows[i]];
          inserted := inserted + 1;
        }
      }
      assert rows[..|rows|] == rows;
    }

    method InsertDetectorResults(rows: seq<Result>)
      modifies this`results
      ensures results == old(results) + rows
    {
      results := results + rows;
    }

    method InsertAlerts(out: seq<Emission>) returns (inserted: nat)
      modifies this`alerts, this`audit
      ensures alerts == AddAlerts(old(alerts), out)
      ensures audit == old(audit) + CreatedRows(old(alerts), out)
      ensures inserted == |audit| - |old(audit)|
    {
      inserted := 0;
      for i := 0 to |out|
        invariant alerts == AddAlerts(old(alerts), out[..i])
        invariant audit == old(audit) + CreatedRows(old(alerts), out[..i])
        invariant inserted == |audit| - |old(audit)|
      {
        assert out[..i + 1][..i] == out[..i];
        if out[i].Raised? && out[i].alert.id !in alerts {
          alerts := alerts[out[i].alert.id := NewRow(out[i].alert)];
          audit := audit + [Created(out[i].alert.ts, out[i].alert.id)];
          inserted := inserted + 1;
        }
      }
      assert out[..|out|] == out;
    }

    method TouchAlert(t: Touch)
      modifies this`alerts, this`audit
      ensures alerts == TouchRow(old(alerts), Touched(t))
      ensures audit == old(audit) + [Deduped(t.lastSeen, t.id, t.dedupCount)]
    {
      if t.id in alerts {
        alerts := alerts[t.id := alerts[t.id].(lastSeen := t.lastSeen, dedupCount := t.dedupCount,
                                               eventCount := t.eventCount)];
      }
      audit := audit + [Deduped(t.lastSeen, t.id, t.dedupCount)];
    }

    method UpsertIncidents(out: seq<Emission>)
      modifies this`incidents
      ensures incidents == PutIncidents(old(incidents), out)
    {
      for i := 0 to |out|
        invariant incidents == PutIncidents(old(incidents), out[..i])
      {
        assert out[..i + 1][..i] == out[..i];
        if out[i].Raised? && out[i].incident.Some? {
          incidents := incidents[out[i].incident.value.id := out[i].incident.value];
        }
      }
      assert out[..|out|] == out;
    }
  }

  // ---- First event, first alert, last touch, last incident ----

  /** An event already in the table stays, and an id nothing was inserted under stays unknown. */
  lemma {:induction false} EventsStay(t: map<nat, Event>, es: seq<Event>, id: nat)
    ensures id in t ==> id in AddEvents(t, es) && AddEvents(t, es)[id] == t[id]
    ensures id !in t && (forall k :: 0 <= k < |es| ==> es[k].id != id) ==> id !in AddEvents(t, es)
  {
    if es != [] {
      EventsStay(t, es[..|es| - 1], id);
    }
  }

  /** A row keeps the event it was first inserted with, whatever else arrives under its id. */
  lemma {:induction false} FirstEventWins(t: map<nat, Event>, es: seq<Event>, i: nat)
    requires i < |es| && es[i].id !in t && forall k :: 0 <= k < i ==> es[k].id != es[i].id
    ensures es[i].id in AddEvents(t, es) && AddEvents(t, es)[es[i].id] == es[i]
  {
    if i < |es| - 1 {
      FirstEventWins(t, es[..|es| - 1], i);
    } else {
      EventsStay(t, es[..i], es[i].id);
    }
  }

  /** An alert already in the table is not touched by an insert. */
  lemma {:induction false} InsertIgnores(t: map<AlertId, AlertRow>, out: seq<Emission>, id: AlertId)
    ensures id in t ==> id in AddAlerts(t, out) && AddAlerts(t, out)[id] == t[id]
    ensures id !in t && (forall i :: 0 <= i < |out| && out[i].Raised? ==> out[i].alert.id != id) ==>
              id !in AddAlerts(t, out)
  {
    if out != [] {
      InsertIgnores(t, out[..|out| - 1], id);
    }
  }

  /** One CREATED row for each alert inserted, with its time and id, in order. */
  lemma {:induction false} CreatedExact(t: map<AlertId, AlertRow>, out: seq<Emission>, e: Emission)
    ensures CreatedRows(t, []) == []
    ensures CreatedRows(t, out + [e]) ==
            CreatedRows(t, out) +
            (if e.Raised? && e.alert.id !in t &&
                (forall i :: 0 <= i < |out| && out[i].Raised? ==> out[i].alert.id != e.alert.id)
             then [Created(e.alert.ts, e.alert.id)] else [])
  {
    assert (out + [e])[..|out|] == out;
    if e.Raised? {
      InsertIgnores(t, out, e.alert.id);
      if i :| 0 <= i < |out| && out[i].Raised? && out[i].alert.id == e.alert.id {
        Inserted(t, out, i);
      }
    }
  }

  lemma {:induction false} Inserted(t: map<AlertId, AlertRow>, out: seq<Emission>, i: nat)
    requires i < |out| && out[i].Raised?
    ensures out[i].alert.id in AddAlerts(t, out)
  {
    if i < |out| - 1 {
      Inserted(t, out[..|out| - 1], i);
    }
  }

  /** After the touches a row has the time and the counts of the last touch that names it, and otherwise what it had. */
  lemma {:induction false} LastTouchWins(t: map<AlertId, AlertRow>, out: seq<Emission>, i: nat)
    requires i < |out| && out[i].Touched? && out[i].touch.id in t
    requires forall j :: i < j < |out| && out[j].Touched? ==> out[j].touch.id != out[i].touch.id
    ensures var (m, t') := (out[i].touch, TouchRows(t, out));
            && m.id in t' && t'[m.id].alert == t[m.id].alert && t'[m.id].lastSeen == m.lastSeen
            && t'[m.id].dedupCount == m.dedupCount && t'[m.id].eventCount == m.eventCount
  {
    if i < |out| - 1 {
      LastTouchWins(t, out[..|out| - 1], i);
    } else {
      AlertsStay(t, out[..i], out[i].touch.id);
    }
  }

  /** Touches change no row's alert, and no row that none of them names. */
  lemma {:induction false} AlertsStay(t: map<AlertId, AlertRow>, out: seq<Emission>, id: AlertId)
    ensures id in TouchRows(t, out) <==> id in t
    ensures id in t ==> TouchRows(t, out)[id].alert == t[id].alert
    ensures id in t && (forall i :: 0 <= i < |out| && out[i].Touched? ==> out[i].touch.id != id) ==>
              TouchRows(t, out)[id] == t[id]
  {
    if out != [] {
      AlertsStay(t, out[..|out| - 1], id);
    }
  }

  /** A row keeps the alert it was first inserted with, however often its id is raised again. */
  lemma {:induction false} FirstAlertWins(t: map<AlertId, AlertRow>, out: seq<Emission>, i: nat)
    requires i < |out| && out[i].Raised? && out[i].alert.id !in AddAlerts(t, out[..i])
    ensures out[i].alert.id in AddAlerts(t, out) && AddAlerts(t, out)[out[i].alert.id] == NewRow(out[i].alert)
  {
    if i == |out| - 1 {
      assert out[..i] == out[..|out| - 1];
    } else {
      assert out[..|out| - 1][..i] == out[..i];
      FirstAlertWins(t, out[..|out| - 1], i);
    }
  }

  /** An incident's row is the last report of it. */
  lemma {:induction false} LastIncidentWins(t: map<nat, Incident>, out: seq<Emission>, i: nat)
    requires i < |out| && out[i].Raised? && out[i].incident.Some?
    requires forall j :: i < j < |out| && out[j].Raised? && out[j].incident.Some? ==>
               out[j].incident.value.id != out[i].incident.value.id
    ensures var x := out[i].incident.value; x.id in PutIncidents(t, out) && PutIncidents(t, out)[x.id] == x
  {
    if i < |out| - 1 {
      LastIncidentWins(t, out[..|out| - 1], i);
    }
  }

  // ---- What is written stays written ----

  /** An outcome's alert has a row, its incident has a row, its touch is on the audit trail. */
  ghost predicate Written(t: Tables, e: Emission) {
    && (e.Raised? ==> e.alert.id in t.alerts)
    && (e.Raised? && e.incident.Some? ==> e.incident.value.id in t.incidents)
    && (e.Touched? ==> Deduped(e.touch.lastSeen, e.touch.id, e.touch.dedupCount) in t.audit)
  }

  ghost predicate AllWritten(t: Tables, out: seq<Emission>) {
    forall i :: 0 <= i < |out| ==> Written(t, out[i])
  }

  /** No row is ever removed. */
  ghost predicate Grows(t: Tables, t': Tables) {
    && t.alerts.Keys <= t'.alerts.Keys && t.incidents.Keys <= t'.incidents.Keys
    && forall a :: a in t.audit ==> a in t'.audit
  }

  lemma WrittenStays(t: Tables, t': Tables, out: seq<Emission>)
    requires Grows(t, t') && AllWritten(t, out)
    ensures AllWritten(t', out)
  {
    forall i | 0 <= i < |out| ensures Written(t', out[i]) {
      assert Written(t, out[i]);
    }
  }

  lemma {:induction false} AlertsGrow(t: map<AlertId, AlertRow>, out: seq<Emission>)
    ensures t.Keys <= AddAlerts(t, out).Keys
    ensures forall i :: 0 <= i < |out| && out[i].Raised? ==> out[i].alert.id in AddAlerts(t, out)
  {
    if out != [] {
      AlertsGrow(t, out[..|out| - 1]);
    }
  }

  lemma {:induction false} TouchesGrow(t: map<AlertId, AlertRow>, out: seq<Emission>)
    ensures t.Keys <= TouchRows(t, out).Keys
  {
    if out != [] {
      TouchesGrow(t, out[..|out| - 1]);
    }
  }

  lemma {:induction false} IncidentsGrow(t: map<nat, Incident>, out: seq<Emission>)
    ensures t.Keys <= PutIncidents(t, out).Keys
    ensures forall i :: 0 <= i < |out| && out[i].Raised? && out[i].incident.Some? ==>
              out[i].incident.value.id in PutIncidents(t, out)
  {
    if out != [] {
      IncidentsGrow(t, out[..|out| - 1]);
    }
  }

  lemma {:induction false} TouchesLogged(out: seq<Emission>)
    ensures forall i :: 0 <= i < |out| && out[i].Touched? ==>
              Deduped(out[i].touch.lastSeen, out[i].touch.id, out[i].touch.dedupCount) in DedupedRows(out)
  {
    if out != [] {
      TouchesLogged(out[..|out| - 1]);
    }
  }

  lemma AppliedWrites(t: Tables, out: seq<Emission>)
    ensures Grows(t, Applied(t, out)) && AllWritten(Applied(t, out), out)
  {
    AlertsGrow(t.alerts, out);
    TouchesGrow(AddAlerts(t.alerts, out), out);
    IncidentsGrow(t.incidents, out);
    TouchesLogged(out);
  }

  // ---- Exactly once, whatever is redelivered ----

  /** The same id always carries the same event, as ids derived from content do. */
  ghost predicate Derived(es: set<Event>) {
    forall a, b :: a in es && b in es && a.id == b.id ==> a == b
  }

  /** The table holds exactly these events, each under its id. */
  ghost predicate Holds(t: map<nat, Event>, es: set<Event>) {
    && (forall e :: e in es ==> e.id in t && t[e.id] == e)
    && (forall id :: id in t ==> t[id] in es && t[id].id == id)
  }

  lemma AddOneHolds(t: map<nat, Event>, have: set<Event>, e: Event)
    requires Holds(t, have) && Derived(have + {e})
    ensures Holds(AddEvent(t, e), have + {e})
  {
    if e.id in t {
      assert t[e.id] in have && t[e.id].id == e.id;
    }
  }

  lemma {:induction false} AddHolds(t: map<nat, Event>, have: set<Event>, es: seq<Event>)
    requires Holds(t, have) && Derived(have + ToSet(es))
    ensures Holds(AddEvents(t, es), have + ToSet(es))
  {
    if es == [] {
      assert have + ToSet(es) == have;
    } else {
      var front, e := es[..|es| - 1], es[|es| - 1];
      assert es == front + [e];
      assert have + ToSet(es) == have + ToSet(front) + {e};
      AddHolds(t, have, front);
      AddOneHolds(AddEvents(t, front), have + ToSet(front), e);
    }
  }

  function AllOf(deliveries: seq<seq<Event>>): seq<Event> {
    if deliveries == [] then [] else AllOf(deliveries[..|deliveries| - 1]) + deliveries[|deliveries| - 1]
  }

  function AddAll(t: map<nat, Event>, deliveries: seq<seq<Event>>): map<nat, Event> {
    if deliveries == [] then t
    else AddEvents(AddAll(t, deliveries[..|deliveries| - 1]), deliveries[|deliveries| - 1])
  }

  lemma {:induction false} AddAppend(t: map<nat, Event>, a: seq<Event>, b: seq<Event>)
    ensures AddEvents(t, a + b) == AddEvents(AddEvents(t, a), b)
  {
    if b == [] {
      assert a + b == a;
    } else {
      AddAppend(t, a, b[..|b| - 1]);
      assert (a + b)[..|a + b| - 1] == a + b[..|b| - 1];
    }
  }

  /** Writing in chunks is writing at once. */
  lemma {:induction false} ChunksAddUp(t: map<nat, Event>, chunks: seq<seq<Event>>)
    ensures AddAll(t, chunks) == AddEvents(t, AllOf(chunks))
  {
    if chunks != [] {
      var front := chunks[..|chunks| - 1];
      ChunksAddUp(t, front);
      AddAppend(t, AllOf(front), chunks[|chunks| - 1]);
    }
  }

  lemma HoldsOneTable(a: map<nat, Event>, b: map<nat, Event>, es: set<Event>)
    requires Holds(a, es) && Holds(b, es)
    ensures a == b
  {
    forall id ensures id in a <==> id in b {
      if id in a {
        assert a[id] in es;
      }
      if id in b {
        assert b[id] in es;
      }
    }
    forall id | id in a ensures a[id] == b[id] {
      assert a[id] in es;
    }
  }

  /** Exactly-once effect: however the events are split, repeated, reordered or cut short by crashes, once
      every one has been delivered the table is the one a single delivery would have left. */
  lemma ExactlyOnce(deliveries: seq<seq<Event>>, whole: seq<Event>)
    requires Derived(ToSet(whole)) && ToSet(AllOf(deliveries)) == ToSet(whole)
    ensures AddAll(map[], deliveries) == AddEvents(map[], whole)
  {
    ChunksAddUp(map[], deliveries);
    AddHolds(map[], {}, AllOf(deliveries));
    AddHolds(map[], {}, whole);
    assert {} + ToSet(whole) == ToSet(whole);
    HoldsOneTable(AddAll(map[], deliveries), AddEvents(map[], whole), ToSet(whole));
  }
}
